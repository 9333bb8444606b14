/**
  mmap agrees with read: pages loaded by faults from the block and size that proc_mmap
  recorded, in any order and between any other file system events, hold the file's bytes.
 */
module FsMmap {
  import opened FsFormat
  import opened Journal
  import opened FsModel
  import opened FsRefinement
  import opened FsCrash
  import opened FsPages

  /** Page k of a file's bytes, zero past the end. */
  function PageSlice(bytes: seq<byte>, k: nat): (p: seq<byte>)
    ensures |p| == PGSIZE
  {
    seq(PGSIZE, i requires 0 <= i < PGSIZE => if k * PGSIZE + i < |bytes| then bytes[k * PGSIZE + i] else 0)
  }

  /** Pages a mapping of this size covers: the size rounded up (src/proc.c:316). */
  function PageCount(size: nat): nat { (size + PGSIZE - 1) / PGSIZE }

  /** The mapped region as the process sees it once pages 0 to n are in. */
  function Assembled(d: Disk, start: u32, size: u32, n: nat): (r: seq<byte>)
    requires GoodExtent(d, start, size)
    ensures |r| == n * PGSIZE
  {
    if n == 0 then [] else Assembled(d, start, size, n - 1) + PageOf(d, start, size, (n - 1) * PGSIZE)
  }

  lemma PageIsSlice(d: Disk, e: Dirent, k: nat)
    requires GoodExtent(d, e.start, e.size)
    ensures PageOf(d, e.start, e.size, k * PGSIZE) == PageSlice(FileBytes(d, e), k)
  {
  }

  lemma {:induction false} AssembledPrefix(d: Disk, e: Dirent, n: nat, i: nat)
    requires GoodExtent(d, e.start, e.size) && i < n * PGSIZE
    ensures Assembled(d, e.start, e.size, n)[i] == if i < e.size then FileBytes(d, e)[i] else 0
  {
    if i < (n - 1) * PGSIZE {
      AssembledPrefix(d, e, n - 1, i);
    } else {
      PageIsSlice(d, e, n - 1);
    }
  }

  /** The whole mapping is what fs_read returns, followed by zeros to the end of the last page. */
  lemma MappingIsFile(d: Disk, e: Dirent)
    requires GoodExtent(d, e.start, e.size)
    ensures var n := PageCount(e.size);
            && e.size <= n * PGSIZE
            && Assembled(d, e.start, e.size, n) == FileBytes(d, e) + seq(n * PGSIZE - e.size, i => 0)
  {
    var n := PageCount(e.size);
    forall i | 0 <= i < n * PGSIZE
      ensures Assembled(d, e.start, e.size, n)[i] == (FileBytes(d, e) + seq(n * PGSIZE - e.size, j => 0))[i]
    {
      AssembledPrefix(d, e, n, i);
    }
  }

  // ---- faults between file system events ----

  predicate HasEntry(m: Mem, e: Dirent)
    requires m.nfiles <= MAXFILES
  {
    exists i :: 0 <= i < m.nfiles && m.dir[i] == e
  }

  predicate Removes(ev: Event, name: seq<byte>) {
    (ev.Delete? || ev.CrashInDelete?) && ev.name == name
  }

  lemma CreateKeepsEntry(m: Mem, d: Disk, name: seq<byte>, content: seq<byte>, e: Dirent)
    requires Creates(m, d, name, content) && HasEntry(m, e)
    ensures HasEntry(CreateOf(m, name, content).after, e)
  {
    CreatePlaces(m, d, name, content);
    var i :| 0 <= i < m.nfiles && m.dir[i] == e;
    assert CreateOf(m, name, content).after.dir[i] == e;
  }

  lemma DeleteKeepsEntry(m: Mem, d: Disk, name: seq<byte>, e: Dirent)
    requires Deletes(m, d, name) && HasEntry(m, e) && CStr(e.name) != name
    ensures HasEntry(DeleteTxn(m, Find(m, name)).after, e)
  {
    var idx := Find(m, name);
    var f :| 0 <= f < m.nfiles && m.dir[f] == e;
    var i := if f < idx then f else f - 1;
    RemovedAt(m.dir, m.nfiles, idx, i);
    assert DeleteTxn(m, idx).after.dir[i] == e;
  }

  /** An event that does not delete the file keeps its very directory entry, hence its blocks. */
  lemma EventKeepsEntry(m: Mem, d: Disk, ev: Event, e: Dirent)
    requires Consistent(m, d) && GoodEvent(m, ev) && HasEntry(m, e) && !Removes(ev, CStr(e.name))
    ensures Apply(m, d, ev).Mounted? && 0 <= Apply(m, d, ev).m.nfiles <= MAXFILES && HasEntry(Apply(m, d, ev).m, e)
  {
    hide Files, CreateAt, CreateOf, DeleteTxn, Commit, CrashDisk, FsTxn, Mount, Find, MemOf, Bitmap, LogIdle, HasEntry,
         CStr;
    EventRefines(m, d, ev);
    match ev
    case Create(name, content) =>
      if CreateAt(m, name, |content|) >= 0 { CreateKeepsEntry(m, d, name, content, e); }
    case Delete(name) =>
      if Find(m, name) < m.nfiles { DeleteKeepsEntry(m, d, name, e); }
    case Remount =>
      MountIsIdentity(m, d);
    case CrashInCreate(name, content, k, js) =>
      if CreateAt(m, name, |content|) >= 0 {
        CreateKeepsEntry(m, d, name, content, e);
        if |name| < NAMELEN { ShortNameFree(m, d, name, content); }
        CreateIsTxn(m, d, name, content);
        CrashAtomic(m, d, CreateOf(m, name, content), k, js);
      } else {
        RefusedCrash(m, d, js);
      }
    case CrashInDelete(name, k, js) =>
      if Find(m, name) < m.nfiles {
        DeleteKeepsEntry(m, d, name, e);
        DeleteIsTxn(m, d, name);
        CrashAtomic(m, d, DeleteTxn(m, Find(m, name)), k, js);
      } else {
        RefusedCrash(m, d, js);
      }
  }

  lemma EntryGivesBytes(m: Mem, d: Disk, e: Dirent)
    requires Consistent(m, d) && HasEntry(m, e)
    ensures GoodExtent(d, e.start, e.size) && CStr(e.name) in Files(m, d)
    ensures Files(m, d)[CStr(e.name)] == FileBytes(d, e)
  {
    var i :| 0 <= i < m.nfiles && m.dir[i] == e;
    assert GoodEntry(e, m.total);
    FilesByEntry(m, d, i);
  }

  /** A step of a process with a mapping: it faults page k in, or the file system moves on. */
  datatype Step = Fault(k: nat) | Fs(ev: Event)

  type Loaded = map<nat, seq<byte>>

  datatype View = View(m: Mem, d: Disk, pages: Loaded)

  /** One step with the start block and size that proc_mmap recorded; a page already in stays as loaded. */
  function StepOnce(v: View, start: u32, size: u32, step: Step): View {
    if !Consistent(v.m, v.d) then v else
    match step
    case Fault(k) =>
      if GoodExtent(v.d, start, size) && k < PageCount(size) && k !in v.pages
      then v.(pages := v.pages[k := PageOf(v.d, start, size, k * PGSIZE)]) else v
    case Fs(ev) =>
      match Apply(v.m, v.d, ev) case NotMounted => v case Mounted(m', d') => View(m', d', v.pages)
  }

  ghost predicate PagesMatch(pages: Loaded, bytes: seq<byte>) {
    forall k :: k in pages ==> pages[k] == PageSlice(bytes, k)
  }

  /** The mapped file is there with these bytes, and every loaded page is the matching slice of them. */
  ghost predicate Agrees(v: View, e: Dirent, bytes: seq<byte>) {
    && Consistent(v.m, v.d) && HasEntry(v.m, e)
    && CStr(e.name) in Files(v.m, v.d) && Files(v.m, v.d)[CStr(e.name)] == bytes
    && PagesMatch(v.pages, bytes)
  }

  ghost predicate Harmless(v: View, step: Step, e: Dirent) {
    step.Fs? ==> 0 <= v.m.nfiles <= MAXFILES && GoodEvent(v.m, step.ev) && !Removes(step.ev, CStr(e.name))
  }

  /** No step of the run deletes the file or spoils the directory. */
  ghost predicate HarmlessRun(v: View, steps: seq<Step>, e: Dirent)
    decreases |steps|
  {
    steps != [] ==> Harmless(v, steps[0], e) && HarmlessRun(StepOnce(v, e.start, e.size, steps[0]), steps[1..], e)
  }

  lemma FaultAgrees(v: View, e: Dirent, bytes: seq<byte>, k: nat)
    requires Agrees(v, e, bytes)
    ensures Agrees(StepOnce(v, e.start, e.size, Fault(k)), e, bytes)
  {
    EntryGivesBytes(v.m, v.d, e);
    PageIsSlice(v.d, e, k);
  }

  lemma FsAgrees(v: View, e: Dirent, bytes: seq<byte>, ev: Event)
    requires Agrees(v, e, bytes) && Harmless(v, Fs(ev), e)
    ensures Agrees(StepOnce(v, e.start, e.size, Fs(ev)), e, bytes)
  {
    hide Apply, Took, MemOf, LogIdle, Bitmap, FileBytes, PageSlice, GoodEntry, FsModel.Apart, PagesMatch, Files,
         HasEntry, CStr;
    var r := Apply(v.m, v.d, ev);
    EventRefines(v.m, v.d, ev);
    assert HasEntry(r.m, e) by { EventKeepsEntry(v.m, v.d, ev, e); }
    assert CStr(e.name) in Files(r.m, r.d) by { EntryGivesBytes(r.m, r.d, e); }
    assert Files(r.m, r.d) == MapAfter(Files(v.m, v.d), ev, Took(v.m, v.d, ev));
  }

  lemma StepAgrees(v: View, e: Dirent, bytes: seq<byte>, step: Step)
    requires Agrees(v, e, bytes) && Harmless(v, step, e)
    ensures Agrees(StepOnce(v, e.start, e.size, step), e, bytes)
  {
    match step
    case Fault(k) => FaultAgrees(v, e, bytes, k);
    case Fs(ev) => FsAgrees(v, e, bytes, ev);
  }

  function FaultRun(v: View, start: u32, size: u32, steps: seq<Step>): View
    decreases |steps|
  {
    if steps == [] then v
    else FaultRun(StepOnce(v, start, size, steps[0]), start, size, steps[1..])
  }

  /**
    Whatever the order of faults and whatever else happens to the disk, as long as the
    mapped file is not deleted: the file keeps its bytes, and every loaded page is the
    matching slice of them.
   */
  lemma {:induction false} MmapAgreesWithRead(v: View, e: Dirent, bytes: seq<byte>, steps: seq<Step>)
    requires Agrees(v, e, bytes) && HarmlessRun(v, steps, e)
    ensures Agrees(FaultRun(v, e.start, e.size, steps), e, bytes)
    decreases |steps|
  {
    hide Agrees, StepOnce, Harmless;
    if steps != [] {
      var next := StepOnce(v, e.start, e.size, steps[0]);
      assert Agrees(next, e, bytes) by { StepAgrees(v, e, bytes, steps[0]); }
      MmapAgreesWithRead(next, e, bytes, steps[1..]);
    }
  }

  // ---- a mapping that is all in ----

  /** The first n loaded pages, one after the other. */
  function Concat(pages: Loaded, n: nat): seq<byte>
    requires forall k :: 0 <= k < n ==> k in pages
  {
    if n == 0 then [] else Concat(pages, n - 1) + pages[n - 1]
  }

  lemma {:induction false} ConcatAt(pages: Loaded, bytes: seq<byte>, n: nat, i: nat)
    requires PagesMatch(pages, bytes) && (forall k :: 0 <= k < n ==> k in pages) && i < n * PGSIZE
    ensures |Concat(pages, n)| == n * PGSIZE && Concat(pages, n)[i] == if i < |bytes| then bytes[i] else 0
    decreases n
  {
    ConcatSize(pages, bytes, n - 1);
    assert pages[n - 1] == PageSlice(bytes, n - 1);
    if i < (n - 1) * PGSIZE { ConcatAt(pages, bytes, n - 1, i); }
  }

  lemma {:induction false} ConcatSize(pages: Loaded, bytes: seq<byte>, n: nat)
    requires PagesMatch(pages, bytes) && forall k :: 0 <= k < n ==> k in pages
    ensures |Concat(pages, n)| == n * PGSIZE
    decreases n
  {
    if n > 0 {
      ConcatSize(pages, bytes, n - 1);
      assert pages[n - 1] == PageSlice(bytes, n - 1);
    }
  }

  lemma ConcatIsFile(pages: Loaded, bytes: seq<byte>, n: nat)
    requires PagesMatch(pages, bytes) && (forall k :: 0 <= k < n ==> k in pages) && |bytes| <= n * PGSIZE
    ensures Concat(pages, n) == bytes + seq(n * PGSIZE - |bytes|, i => 0)
  {
    ConcatSize(pages, bytes, n);
    var all := bytes + seq(n * PGSIZE - |bytes|, i => 0);
    hide Concat, PagesMatch;
    forall i | 0 <= i < n * PGSIZE ensures Concat(pages, n)[i] == all[i] {
      ConcatAt(pages, bytes, n, i);
    }
  }

  lemma AgreesSize(v: View, e: Dirent, bytes: seq<byte>)
    requires Agrees(v, e, bytes)
    ensures |bytes| == e.size <= PageCount(e.size) * PGSIZE && PagesMatch(v.pages, bytes)
  {
    hide PagesMatch, HasEntry, Files, Consistent;
    EntryGivesBytes(v.m, v.d, e);
  }

  /**
    Once faults have brought in every page, in whatever order and whatever happened between, the
    mapping reads the file and then zeros.
   */
  lemma LoadedMappingIsFile(v: View, e: Dirent, bytes: seq<byte>, steps: seq<Step>)
    requires Agrees(v, e, bytes) && HarmlessRun(v, steps, e)
    requires var w := FaultRun(v, e.start, e.size, steps); forall k :: 0 <= k < PageCount(e.size) ==> k in w.pages
    ensures var w, n := FaultRun(v, e.start, e.size, steps), PageCount(e.size);
            && |bytes| == e.size <= n * PGSIZE && Concat(w.pages, n) == bytes + seq(n * PGSIZE - |bytes|, i => 0)
  {
    hide HarmlessRun, FaultRun, Agrees, PagesMatch, Concat, PageCount;
    var w := FaultRun(v, e.start, e.size, steps);
    MmapAgreesWithRead(v, e, bytes, steps);
    AgreesSize(w, e, bytes);
    ConcatIsFile(w.pages, bytes, PageCount(e.size));
  }
}
