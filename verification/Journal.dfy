/**
  The write-ahead log of src/fs.c on a disk of atomically written blocks.  A
  transaction is the exact list of block writes the kernel issues; a crash keeps a
  prefix of that list, and a crash inside recovery keeps a prefix of recovery's own list.
 */
module Journal {
  import opened FsFormat

  type Disk = d: seq<Block> | |d| >= 19 witness seq<Block>(19, i => ZeroBlock())

  datatype Write = Write(blk: nat, data: Block)

  /** One block write; the device refuses a block beyond its end and the result is ignored. */
  function Put(d: Disk, w: Write): (r: Disk)
    ensures |r| == |d|
  {
    if w.blk < |d| then d[w.blk := w.data] else d
  }

  function ApplyAll(d: Disk, ws: seq<Write>): (r: Disk)
    ensures |r| == |d|
    decreases |ws|
  {
    if ws == [] then d else ApplyAll(Put(d, ws[0]), ws[1..])
  }

  lemma TakeAll<T>(s: seq<T>)
    ensures s[..|s|] == s
  {
  }

  lemma ConsTail<T>(x: T, s: seq<T>)
    ensures ([x] + s)[0] == x && ([x] + s)[1..] == s
  {
  }

  lemma AppendAssoc<T>(a: seq<T>, b: seq<T>, c: seq<T>)
    ensures (a + b) + c == a + (b + c)
  {
  }

  lemma {:induction false} ApplyConcat(d: Disk, ws: seq<Write>, vs: seq<Write>)
    ensures ApplyAll(d, ws + vs) == ApplyAll(ApplyAll(d, ws), vs)
    decreases |ws|
  {
    if ws == [] {
      assert ws + vs == vs;
    } else {
      assert (ws + vs)[1..] == ws[1..] + vs;
      ApplyConcat(Put(d, ws[0]), ws[1..], vs);
    }
  }

  /** Blocks no write names keep their contents. */
  lemma {:induction false} ApplyFrame(d: Disk, ws: seq<Write>, b: nat)
    requires b < |d|
    requires forall i :: 0 <= i < |ws| ==> ws[i].blk != b
    ensures ApplyAll(d, ws)[b] == d[b]
    decreases |ws|
  {
    if ws != [] {
      ApplyFrame(Put(d, ws[0]), ws[1..], b);
    }
  }

  /** The last write to a block decides its contents. */
  lemma {:induction false} LastWriteWins(d: Disk, ws: seq<Write>, m: nat)
    requires m < |ws| && ws[m].blk < |d|
    requires forall t :: m < t < |ws| ==> ws[t].blk != ws[m].blk
    ensures ApplyAll(d, ws)[ws[m].blk] == ws[m].data
    decreases |ws|
  {
    if m == 0 {
      ApplyFrame(Put(d, ws[0]), ws[1..], ws[0].blk);
    } else {
      LastWriteWins(Put(d, ws[0]), ws[1..], m - 1);
    }
  }

  // ---- a transaction: log, commit, install, clear ----

  predicate InLog(b: int) { LOGHDR <= b < DATASTART }

  predicate LogIdle(d: Disk) { WordAt(d[LOGHDR], 0) == 0 }

  /** Destinations a transaction may name: on the disk and outside the log area. */
  predicate SafeDsts(d: Disk, dsts: seq<u32>) {
    |dsts| <= LOGN && forall i :: 0 <= i < |dsts| ==> dsts[i] < |d| && !InLog(dsts[i])
  }

  function LogPhase(data: seq<Block>): seq<Write> {
    seq(|data|, i requires 0 <= i < |data| => Write(LOGSTART + i, data[i]))
  }

  function InstallPhase(dsts: seq<u32>, data: seq<Block>): seq<Write>
    requires |dsts| == |data|
  {
    seq(|data|, i requires 0 <= i < |data| => Write(dsts[i], data[i]))
  }

  const CLEAR_HEADER: Write := Write(LOGHDR, EncodeHeader(0, []))

  function CommitWrite(dsts: seq<u32>): Write
    requires |dsts| <= LOGN
  {
    Write(LOGHDR, EncodeHeader(1, dsts))
  }

  function FinishPhase(dsts: seq<u32>, data: seq<Block>): (ws: seq<Write>)
    requires |dsts| == |data|
    ensures |ws| == |dsts| + 1
  {
    InstallPhase(dsts, data) + [CLEAR_HEADER]
  }

  function TxnWrites(dsts: seq<u32>, data: seq<Block>): (ws: seq<Write>)
    requires |dsts| == |data| <= LOGN
    ensures |ws| == 2 * |dsts| + 2
  {
    LogPhase(data) + [CommitWrite(dsts)] + FinishPhase(dsts, data)
  }

  // ---- recovery at mount ----

  /** Installing reads each logged block back from the disk as it then is. */
  function InstallWrites(d: Disk, blks: seq<u32>, i: nat): (ws: seq<Write>)
    requires i <= |blks| <= LOGN
    ensures |ws| == |blks| - i
    decreases |blks| - i
  {
    if i == |blks| then [] else
      var w := Write(blks[i], d[LOGSTART + i]);
      [w] + InstallWrites(Put(d, w), blks, i + 1)
  }

  /** One turn of the install loop, seen from the whole list of writes. */
  lemma InstallStep(start: Disk, d: Disk, done: seq<Write>, blks: seq<u32>, i: nat)
    requires i < |blks| <= LOGN && d == ApplyAll(start, done)
    ensures var w := Write(blks[i], d[LOGSTART + i]);
            && ApplyAll(start, done + [w]) == Put(d, w)
            && done + InstallWrites(d, blks, i) == (done + [w]) + InstallWrites(Put(d, w), blks, i + 1)
  {
    var w := Write(blks[i], d[LOGSTART + i]);
    ApplyConcat(start, done, [w]);
    assert ApplyAll(d, [w]) == Put(d, w);
    AppendAssoc(done, [w], InstallWrites(Put(d, w), blks, i + 1));
  }

  function HeaderDsts(d: Disk): (dsts: seq<u32>)
    ensures |dsts| <= LOGN
  {
    var h := DecodeHeader(d[LOGHDR]);
    h.blk[..if h.n > LOGN then LOGN else h.n]
  }

  function RecoverWrites(d: Disk): seq<Write> {
    if LogIdle(d) then [] else InstallWrites(d, HeaderDsts(d), 0) + [CLEAR_HEADER]
  }

  function Recover(d: Disk): (r: Disk)
    ensures |r| == |d|
  {
    ApplyAll(d, RecoverWrites(d))
  }

  function Prefix(ws: seq<Write>, k: nat): seq<Write> {
    ws[..if k > |ws| then |ws| else k]
  }

  /** Successive recovery attempts, the i-th dying after js[i] of its own writes. */
  function CrashedRecoveries(d: Disk, js: seq<nat>): (r: Disk)
    ensures |r| == |d|
    decreases |js|
  {
    if js == [] then d
    else CrashedRecoveries(ApplyAll(d, Prefix(RecoverWrites(d), js[0])), js[1..])
  }

  // ---- the two sides of the commit point ----

  lemma {:induction false} IdleRecoversToItself(d: Disk, js: seq<nat>)
    requires LogIdle(d)
    ensures Recover(d) == d && CrashedRecoveries(d, js) == d
    decreases |js|
  {
    if js != [] {
      IdleRecoversToItself(d, js[1..]);
    }
  }

  /** The log data blocks hold data, in order. */
  predicate Logged(d: Disk, data: seq<Block>)
    requires |data| <= LOGN
  {
    forall b :: LOGSTART <= b < LOGSTART + |data| ==> d[b] == data[b - LOGSTART]
  }

  /** c with dsts committed in its header and data in its log blocks; x may have any of dsts overwritten. */
  ghost predicate Pending(x: Disk, c: Disk, dsts: seq<u32>, data: seq<Block>)
    requires |dsts| == |data| <= LOGN
  {
    && SafeDsts(c, dsts)
    && |x| == |c|
    && c[LOGHDR] == EncodeHeader(1, dsts)
    && Logged(c, data)
    && (forall b {:trigger x[b]} :: 0 <= b < |c| && b !in dsts ==> x[b] == c[b])
  }

  lemma {:induction false} InstallReadsTheLog(x: Disk, dsts: seq<u32>, data: seq<Block>, i: nat)
    requires |dsts| == |data| && i <= |data| && SafeDsts(x, dsts)
    requires Logged(x, data)
    ensures InstallWrites(x, dsts, i) == InstallPhase(dsts, data)[i..]
    decreases |data| - i
  {
    if i < |data| {
      var w := Write(dsts[i], x[LOGSTART + i]);
      assert !InLog(dsts[i]);
      InstallReadsTheLog(Put(x, w), dsts, data, i + 1);
      assert InstallPhase(dsts, data)[i..] == [InstallPhase(dsts, data)[i]] + InstallPhase(dsts, data)[i + 1..];
    }
  }

  lemma PendingRecoverWrites(x: Disk, c: Disk, dsts: seq<u32>, data: seq<Block>)
    requires |dsts| == |data| <= LOGN && Pending(x, c, dsts, data)
    ensures !LogIdle(x)
    ensures RecoverWrites(x) == FinishPhase(dsts, data)
  {
    HeaderRoundTrip(1, dsts);
    assert InLog(LOGHDR) && LOGHDR !in dsts;
    assert HeaderDsts(x) == dsts;
    forall b | LOGSTART <= b < LOGSTART + |data| ensures x[b] == data[b - LOGSTART] {
      assert InLog(b) && b !in dsts;
    }
    InstallReadsTheLog(x, dsts, data, 0);
  }

  /** Two disks that differ only in blocks still to be installed end equal. */
  lemma {:induction false} InstallsConverge(x: Disk, c: Disk, ws: seq<Write>)
    requires |x| == |c|
    requires forall b {:trigger x[b]} :: 0 <= b < |c| && (forall i :: 0 <= i < |ws| ==> ws[i].blk != b) ==> x[b] == c[b]
    ensures ApplyAll(x, ws) == ApplyAll(c, ws)
    decreases |ws|
  {
    if ws == [] {
      assert x == c;
    } else {
      var x', c' := Put(x, ws[0]), Put(c, ws[0]);
      forall b | 0 <= b < |c'| && (forall i :: 0 <= i < |ws[1..]| ==> ws[1..][i].blk != b)
        ensures x'[b] == c'[b]
      {
        if b != ws[0].blk {
          forall i | 0 <= i < |ws| ensures ws[i].blk != b {
            if i > 0 { assert ws[1..][i - 1].blk != b; }
          }
        }
      }
      InstallsConverge(x', c', ws[1..]);
    }
  }

  /** Recovery that completes gives the same disk from every pending disk. */
  lemma PendingRecovers(x: Disk, c: Disk, dsts: seq<u32>, data: seq<Block>)
    requires |dsts| == |data| <= LOGN && Pending(x, c, dsts, data)
    ensures Recover(x) == ApplyAll(c, FinishPhase(dsts, data))
    ensures LogIdle(Recover(x))
  {
    var ins := InstallPhase(dsts, data);
    PendingRecoverWrites(x, c, dsts, data);
    ApplyConcat(x, ins, [CLEAR_HEADER]);
    ApplyConcat(c, ins, [CLEAR_HEADER]);
    forall b | 0 <= b < |c| && (forall i :: 0 <= i < |ins| ==> ins[i].blk != b) ensures x[b] == c[b] {
      forall i | 0 <= i < |dsts| ensures dsts[i] != b {
        assert ins[i].blk == dsts[i];
      }
    }
    InstallsConverge(x, c, ins);
    assert Recover(x) == Put(ApplyAll(x, ins), CLEAR_HEADER) by {
      assert ApplyAll(ApplyAll(x, ins), [CLEAR_HEADER]) == Put(ApplyAll(x, ins), CLEAR_HEADER);
    }
    HeaderRoundTrip(0, []);
  }

  /** A recovery attempt from a pending disk leaves it pending or finishes it. */
  lemma RecoveryAttempt(x: Disk, c: Disk, dsts: seq<u32>, data: seq<Block>, j: nat)
    requires |dsts| == |data| <= LOGN && Pending(x, c, dsts, data)
    ensures var y := ApplyAll(x, Prefix(RecoverWrites(x), j));
            Pending(y, c, dsts, data) || y == Recover(x)
  {
    var ins := InstallPhase(dsts, data);
    PendingRecoverWrites(x, c, dsts, data);
    if j > |ins| {
      assert Prefix(RecoverWrites(x), j) == RecoverWrites(x);
    } else {
      PartialInstall(x, c, dsts, data, j);
      assert Prefix(RecoverWrites(x), j) == ins[..j];
    }
  }

  lemma PartialInstall(x: Disk, c: Disk, dsts: seq<u32>, data: seq<Block>, j: nat)
    requires |dsts| == |data| <= LOGN && Pending(x, c, dsts, data) && j <= |dsts|
    ensures Pending(ApplyAll(x, InstallPhase(dsts, data)[..j]), c, dsts, data)
  {
    var ws := InstallPhase(dsts, data)[..j];
    forall b | 0 <= b < |c| && b !in dsts ensures ApplyAll(x, ws)[b] == c[b] {
      forall i | 0 <= i < |ws| ensures ws[i].blk != b {
        assert ws[i].blk == dsts[i];
      }
      ApplyFrame(x, ws, b);
    }
  }

  lemma {:induction false} RepeatedRecovery(x: Disk, c: Disk, dsts: seq<u32>, data: seq<Block>, js: seq<nat>)
    requires |dsts| == |data| <= LOGN && Pending(x, c, dsts, data)
    ensures Recover(CrashedRecoveries(x, js)) == ApplyAll(c, FinishPhase(dsts, data))
    decreases |js|
  {
    PendingRecovers(x, c, dsts, data);
    if js != [] {
      var y := ApplyAll(x, Prefix(RecoverWrites(x), js[0]));
      RecoveryAttempt(x, c, dsts, data, js[0]);
      if Pending(y, c, dsts, data) {
        RepeatedRecovery(y, c, dsts, data, js[1..]);
      } else {
        IdleRecoversToItself(y, js[1..]);
      }
    }
  }

  // ---- the transaction as a whole ----

  /** Equal everywhere except in the log's data blocks. */
  predicate SameOutsideLogData(d: Disk, r: Disk) {
    |d| == |r| && forall b :: 0 <= b < |d| && !(LOGSTART <= b < DATASTART) ==> r[b] == d[b]
  }

  lemma LogPhasePrefix(d: Disk, data: seq<Block>, k: nat)
    requires k <= |data| <= LOGN
    ensures SameOutsideLogData(d, ApplyAll(d, LogPhase(data)[..k]))
  {
    forall b | 0 <= b < |d| && !(LOGSTART <= b < DATASTART)
      ensures ApplyAll(d, LogPhase(data)[..k])[b] == d[b]
    {
      ApplyFrame(d, LogPhase(data)[..k], b);
    }
  }

  lemma {:induction false} LogPhaseFills(d: Disk, data: seq<Block>, k: nat)
    requires k <= |data| <= LOGN
    ensures Logged(ApplyAll(d, LogPhase(data)[..k]), data[..k])
  {
    if k > 0 {
      LogPhaseFills(d, data, k - 1);
      var ws := LogPhase(data);
      assert ws[..k] == ws[..k - 1] + [ws[k - 1]];
      ApplyConcat(d, ws[..k - 1], [ws[k - 1]]);
      assert ApplyAll(ApplyAll(d, ws[..k - 1]), [ws[k - 1]]) == Put(ApplyAll(d, ws[..k - 1]), ws[k - 1]);
    }
  }

  lemma LogAppend(d: Disk, data: seq<Block>, b: Block)
    ensures LogPhase(data + [b]) == LogPhase(data) + [Write(LOGSTART + |data|, b)]
    ensures ApplyAll(d, LogPhase(data + [b])) == Put(ApplyAll(d, LogPhase(data)), Write(LOGSTART + |data|, b))
  {
    var w := Write(LOGSTART + |data|, b);
    assert LogPhase(data + [b]) == LogPhase(data) + [w];
    ApplyConcat(d, LogPhase(data), [w]);
    assert ApplyAll(ApplyAll(d, LogPhase(data)), [w]) == Put(ApplyAll(d, LogPhase(data)), w);
  }

  /** The disk right after the commit header is written. */
  function Committed(d: Disk, dsts: seq<u32>, data: seq<Block>): (c: Disk)
    requires |dsts| == |data| <= LOGN
    ensures |c| == |d|
  {
    Put(ApplyAll(d, LogPhase(data)), CommitWrite(dsts))
  }

  lemma CommittedIsPending(d: Disk, dsts: seq<u32>, data: seq<Block>)
    requires SafeDsts(d, dsts) && |dsts| == |data|
    ensures Pending(Committed(d, dsts, data), Committed(d, dsts, data), dsts, data)
  {
    LogPhaseFills(d, data, |data|);
    assert LogPhase(data)[..|data|] == LogPhase(data);
    assert data[..|data|] == data;
  }

  lemma SplitAt(d: Disk, head: seq<Write>, w: Write, rest: seq<Write>, j: nat)
    requires j <= |rest|
    ensures ApplyAll(d, (head + [w] + rest)[..|head| + 1 + j]) == ApplyAll(Put(ApplyAll(d, head), w), rest[..j])
  {
    assert (head + [w] + rest)[..|head| + 1 + j] == head + ([w] + rest[..j]);
    ApplyConcat(d, head, [w] + rest[..j]);
    assert ([w] + rest[..j])[1..] == rest[..j];
  }

  /** Past the commit point, what is left is the finish phase from the committed disk. */
  lemma CommittedPrefix(d: Disk, dsts: seq<u32>, data: seq<Block>, j: nat)
    requires |dsts| == |data| <= LOGN && j <= |FinishPhase(dsts, data)|
    ensures ApplyAll(d, TxnWrites(dsts, data)[..|dsts| + 1 + j]) ==
            ApplyAll(Committed(d, dsts, data), FinishPhase(dsts, data)[..j])
  {
    SplitAt(d, LogPhase(data), CommitWrite(dsts), FinishPhase(dsts, data), j);
  }

  lemma UncommittedAtomic(d: Disk, dsts: seq<u32>, data: seq<Block>, k: nat, js: seq<nat>)
    requires LogIdle(d) && SafeDsts(d, dsts) && |dsts| == |data| && k <= |dsts|
    ensures var r := Recover(CrashedRecoveries(ApplyAll(d, TxnWrites(dsts, data)[..k]), js));
            LogIdle(r) && SameOutsideLogData(d, r)
  {
    assert TxnWrites(dsts, data)[..k] == LogPhase(data)[..k];
    LogPhasePrefix(d, data, k);
    IdleRecoversToItself(ApplyAll(d, LogPhase(data)[..k]), js);
  }

  /** Dying anywhere in the finish phase, and in any recoveries after it, is made good by one full recovery. */
  lemma FinishAtomic(c: Disk, dsts: seq<u32>, data: seq<Block>, j: nat, js: seq<nat>)
    requires |dsts| == |data| <= LOGN && Pending(c, c, dsts, data) && j <= |FinishPhase(dsts, data)|
    ensures var r := Recover(CrashedRecoveries(ApplyAll(c, FinishPhase(dsts, data)[..j]), js));
            LogIdle(r) && r == ApplyAll(c, FinishPhase(dsts, data))
  {
    PendingRecoverWrites(c, c, dsts, data);
    PendingRecovers(c, c, dsts, data);
    RepeatedRecovery(c, c, dsts, data, [j] + js);
    ConsTail(j, js);
  }

  lemma CommittedAtomic(d: Disk, dsts: seq<u32>, data: seq<Block>, j: nat, js: seq<nat>)
    requires SafeDsts(d, dsts) && |dsts| == |data| && j <= |FinishPhase(dsts, data)|
    ensures var r := Recover(CrashedRecoveries(ApplyAll(d, TxnWrites(dsts, data)[..|dsts| + 1 + j]), js));
            LogIdle(r) && r == ApplyAll(Committed(d, dsts, data), FinishPhase(dsts, data))
  {
    CommittedPrefix(d, dsts, data, j);
    CommittedIsPending(d, dsts, data);
    FinishAtomic(Committed(d, dsts, data), dsts, data, j, js);
  }

  lemma WholeTransaction(d: Disk, dsts: seq<u32>, data: seq<Block>)
    requires |dsts| == |data| <= LOGN
    ensures ApplyAll(d, TxnWrites(dsts, data)) == ApplyAll(Committed(d, dsts, data), FinishPhase(dsts, data))
  {
    CommittedPrefix(d, dsts, data, |dsts| + 1);
    TakeAll(TxnWrites(dsts, data));
    TakeAll(FinishPhase(dsts, data));
  }

  /**
    Crash atomicity of one transaction.  After any prefix of its writes, any number of
    recoveries that themselves crash, and one recovery that completes, the disk is the
    old one (up to the log's scratch blocks) when the commit header had not been
    written, and exactly the finished transaction's disk when it had.
   */
  lemma TransactionAtomic(d: Disk, dsts: seq<u32>, data: seq<Block>, k: nat, js: seq<nat>)
    requires LogIdle(d) && SafeDsts(d, dsts) && |dsts| == |data|
    requires k <= |TxnWrites(dsts, data)|
    ensures var r := Recover(CrashedRecoveries(ApplyAll(d, TxnWrites(dsts, data)[..k]), js));
            && LogIdle(r)
            && (k <= |dsts| ==> SameOutsideLogData(d, r))
            && (k > |dsts| ==> r == ApplyAll(d, TxnWrites(dsts, data)))
  {
    if k <= |dsts| {
      UncommittedAtomic(d, dsts, data, k, js);
    } else {
      CommittedAtomic(d, dsts, data, k - |dsts| - 1, js);
      WholeTransaction(d, dsts, data);
    }
  }

  lemma TransactionInstalls(d: Disk, dsts: seq<u32>, data: seq<Block>, i: nat)
    requires SafeDsts(d, dsts) && |dsts| == |data| && i < |dsts|
    requires forall t :: i < t < |dsts| ==> dsts[t] != dsts[i]
    ensures ApplyAll(d, TxnWrites(dsts, data))[dsts[i]] == data[i]
  {
    var ws := TxnWrites(dsts, data);
    var m := |dsts| + 1 + i;
    assert ws[m] == Write(dsts[i], data[i]);
    assert !InLog(dsts[i]);
    forall t | m < t < |ws| ensures ws[t].blk != dsts[i] {
      if t < 2 * |dsts| + 1 { assert ws[t].blk == dsts[t - |dsts| - 1]; }
    }
    LastWriteWins(d, ws, m);
  }

  /** Outside the log, no crash leaves a block that is neither the old one nor one the transaction wrote there. */
  ghost predicate OldOrNew(x: Disk, d: Disk, dsts: seq<u32>, data: seq<Block>, b: nat)
    requires |dsts| == |data| && |x| == |d| && b < |d|
  {
    x[b] == d[b] || exists i :: 0 <= i < |dsts| && dsts[i] == b && x[b] == data[i]
  }

  lemma {:induction false} WritesOldOrNew(x: Disk, ws: seq<Write>, d: Disk, dsts: seq<u32>, data: seq<Block>, b: nat)
    requires |dsts| == |data| && |x| == |d| && b < |d| && OldOrNew(x, d, dsts, data, b)
    requires forall i :: 0 <= i < |ws| && ws[i].blk == b ==>
               exists t :: 0 <= t < |dsts| && dsts[t] == b && ws[i].data == data[t]
    ensures OldOrNew(ApplyAll(x, ws), d, dsts, data, b)
    decreases |ws|
  {
    if ws != [] {
      WritesOldOrNew(Put(x, ws[0]), ws[1..], d, dsts, data, b);
    }
  }

  lemma TxnWritesAt(dsts: seq<u32>, data: seq<Block>, i: nat, b: nat)
    requires |dsts| == |data| <= LOGN && i < |TxnWrites(dsts, data)| && !InLog(b)
    requires TxnWrites(dsts, data)[i].blk == b
    ensures exists t :: 0 <= t < |dsts| && dsts[t] == b && TxnWrites(dsts, data)[i].data == data[t]
  {
    var t := i - |dsts| - 1;
    assert TxnWrites(dsts, data)[i] == FinishPhase(dsts, data)[t];
    assert 0 <= t < |dsts|;
  }

  lemma InstallsOldOrNew(x: Disk, d: Disk, dsts: seq<u32>, data: seq<Block>, j: nat, b: nat)
    requires |dsts| == |data| <= LOGN && |x| == |d| && b < |d| && !InLog(b)
    requires OldOrNew(x, d, dsts, data, b)
    ensures OldOrNew(ApplyAll(x, Prefix(FinishPhase(dsts, data), j)), d, dsts, data, b)
  {
    var ws := Prefix(FinishPhase(dsts, data), j);
    forall i | 0 <= i < |ws| && ws[i].blk == b
      ensures exists t :: 0 <= t < |dsts| && dsts[t] == b && ws[i].data == data[t]
    {
      assert ws[i] == FinishPhase(dsts, data)[i];
      assert i < |dsts| && dsts[i] == b && ws[i].data == data[i];
    }
    WritesOldOrNew(x, ws, d, dsts, data, b);
  }

  lemma {:induction false} RecoveriesOldOrNew(x: Disk, c: Disk, d: Disk, dsts: seq<u32>, data: seq<Block>,
                                              js: seq<nat>, b: nat)
    requires |dsts| == |data| <= LOGN && |x| == |d| && b < |d| && !InLog(b)
    requires LogIdle(x) || Pending(x, c, dsts, data)
    requires OldOrNew(x, d, dsts, data, b)
    ensures OldOrNew(CrashedRecoveries(x, js), d, dsts, data, b)
    decreases |js|
  {
    if LogIdle(x) {
      IdleRecoversToItself(x, js);
    } else if js != [] {
      PendingRecoverWrites(x, c, dsts, data);
      PendingRecovers(x, c, dsts, data);
      RecoveryAttempt(x, c, dsts, data, js[0]);
      var ws := Prefix(RecoverWrites(x), js[0]);
      InstallsOldOrNew(x, d, dsts, data, js[0], b);
      RecoveriesOldOrNew(ApplyAll(x, ws), c, d, dsts, data, js[1..], b);
    }
  }

  lemma CrashOldOrNew(d: Disk, dsts: seq<u32>, data: seq<Block>, k: nat, js: seq<nat>, b: nat)
    requires LogIdle(d) && SafeDsts(d, dsts) && |dsts| == |data|
    requires k <= |TxnWrites(dsts, data)| && b < |d| && !InLog(b)
    ensures OldOrNew(CrashedRecoveries(ApplyAll(d, TxnWrites(dsts, data)[..k]), js), d, dsts, data, b)
  {
    var ws := TxnWrites(dsts, data)[..k];
    forall i | 0 <= i < |ws| && ws[i].blk == b
      ensures exists t :: 0 <= t < |dsts| && dsts[t] == b && ws[i].data == data[t]
    {
      TxnWritesAt(dsts, data, i, b);
    }
    WritesOldOrNew(d, ws, d, dsts, data, b);
    var c := Committed(d, dsts, data);
    PrefixIdleOrPending(d, dsts, data, k);
    RecoveriesOldOrNew(ApplyAll(d, ws), c, d, dsts, data, js, b);
  }

  lemma PrefixIdleOrPending(d: Disk, dsts: seq<u32>, data: seq<Block>, k: nat)
    requires LogIdle(d) && SafeDsts(d, dsts) && |dsts| == |data| && k <= |TxnWrites(dsts, data)|
    ensures var x := ApplyAll(d, TxnWrites(dsts, data)[..k]);
            LogIdle(x) || Pending(x, Committed(d, dsts, data), dsts, data)
  {
    if k <= |dsts| {
      assert TxnWrites(dsts, data)[..k] == LogPhase(data)[..k];
      LogPhasePrefix(d, data, k);
    } else {
      var c := Committed(d, dsts, data);
      var j: nat := k - |dsts| - 1;
      var y := ApplyAll(c, FinishPhase(dsts, data)[..j]);
      CommittedPrefix(d, dsts, data, j);
      assert Pending(y, c, dsts, data) || LogIdle(y) by {
        CommittedIsPending(d, dsts, data);
        PendingRecoverWrites(c, c, dsts, data);
        RecoveryAttempt(c, c, dsts, data, j);
        PendingRecovers(c, c, dsts, data);
      }
    }
  }

  /** A finished transaction leaves the log idle and changes no block it does not name, the log aside. */
  lemma TransactionFrame(d: Disk, dsts: seq<u32>, data: seq<Block>, b: nat)
    requires |dsts| == |data| <= LOGN && b < |d| && b !in dsts && !InLog(b)
    ensures ApplyAll(d, TxnWrites(dsts, data))[b] == d[b]
  {
    var ws := TxnWrites(dsts, data);
    forall i | 0 <= i < |ws| ensures ws[i].blk != b {
      if |dsts| < i < 2 * |dsts| + 1 { assert ws[i].blk == dsts[i - |dsts| - 1]; }
    }
    ApplyFrame(d, ws, b);
  }

  lemma TransactionIdle(d: Disk, dsts: seq<u32>, data: seq<Block>)
    requires LogIdle(d) && SafeDsts(d, dsts) && |dsts| == |data|
    ensures LogIdle(ApplyAll(d, TxnWrites(dsts, data)))
  {
    TransactionAtomic(d, dsts, data, |TxnWrites(dsts, data)|, []);
  }
}
