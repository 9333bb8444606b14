/** Every interleaving of driver and device keeps the buffers apart and delivers the frames in order. */
module RxSafety {
  import opened RxRing

  /** The eight places add up, whatever is where. */
  lemma PlacesCount(w: World)
    requires Shaped(w.q) && Counts(w) && Partition(w)
    ensures (w.posted - w.taken) + |w.q.held| + |w.q.pending| + (|w.done| - w.seen) + |InHand(w.q.driver)| == NUM
    ensures w.posted - w.seen + |InHand(w.q.driver)| == NUM
  {
    var total := multiset(Posted(w)) + multiset(w.q.held) + multiset(Publishing(w.q)) + multiset(Completed(w))
      + multiset(InHand(w.q.driver));
    assert |total| == |Posted(w)| + |w.q.held| + |w.q.pending| + |Completed(w)| + |InHand(w.q.driver)|;
    assert |All()| == 8;
  }

  lemma AllOnce(x: nat)
    ensures All()[x] == if x < NUM then 1 else 0
  {
  }

  lemma CountIn(s: seq<nat>, x: nat)
    ensures multiset(s)[x] > 0 <==> x in s
  {
  }

  /** The count of x over all places. */
  lemma PlacesOf(w: World, x: nat)
    requires Shaped(w.q) && Counts(w) && Partition(w)
    ensures multiset(Posted(w))[x] + multiset(w.q.held)[x] + multiset(Publishing(w.q))[x]
            + multiset(Completed(w))[x] + multiset(InHand(w.q.driver))[x] == (if x < NUM then 1 else 0)
  {
    AllOnce(x);
  }

  /** A buffer the device holds is a real one and is not among those the driver will read. */
  lemma HeldApart(w: World, j: nat)
    requires Shaped(w.q) && Counts(w) && Partition(w) && j < |w.q.held|
    ensures w.q.held[j] < NUM && w.q.held[j] !in Completed(w)
  {
    var x := w.q.held[j];
    PlacesOf(w, x);
    hide Partition, Counts;
    CountIn(w.q.held, x);
    CountIn(Completed(w), x);
  }

  lemma PendingReal(w: World, k: nat)
    requires Shaped(w.q) && Counts(w) && Partition(w) && k < |w.q.pending|
    ensures w.q.pending[k].id < NUM
  {
    var x := w.q.pending[k].id;
    PlacesOf(w, x);
    hide Partition, Counts;
    assert Publishing(w.q)[k] == x;
    CountIn(Publishing(w.q), x);
  }

  lemma InvIds(w: World)
    requires Inv(w)
    ensures IdsOk(w.q)
  {
    hide Partition;
    forall j | 0 <= j < |w.q.held| ensures w.q.held[j] < NUM { HeldApart(w, j); }
    forall k | 0 <= k < |w.q.pending| ensures w.q.pending[k].id < NUM { PendingReal(w, k); }
    if w.q.driver.Fetched? { assert EntryOk(w.q.buf, Cell(w.q.used, w.seen), w.done[w.seen]); }
  }

  lemma CompletedAt(w: World, k: nat)
    requires Shaped(w.q) && Counts(w) && Contents(w) && w.seen <= k < |w.done|
    ensures w.done[k].id in Completed(w)
  {
    assert EntryOk(w.q.buf, Cell(w.q.used, k), w.done[k]);
    var win := Window(w.q.used, w.seen, |w.done|);
    assert win[k - w.seen] == Cell(w.q.used, k);
    assert Completed(w)[k - w.seen] == w.done[k].id;
  }

  /** Nothing the driver will read sits in the buffer of id x. */
  lemma NotUnread(w: World, x: nat, k: nat)
    requires Shaped(w.q) && Counts(w) && Contents(w) && x !in Completed(w) && w.seen <= k < |w.done|
    ensures w.done[k].id != x
  {
    CompletedAt(w, k);
  }

  // ---- the driver ----

  /** Neither ring nor count that matters for it changed: the places and their contents are as before. */
  lemma SamePlaces(w: World, w': World)
    requires Inv(w) && Shaped(w'.q) && Counts(w') && w'.q.avail == w.q.avail && w'.q.used == w.q.used
             && w'.q.buf == w.q.buf
    requires w'.taken == w.taken && w'.posted == w.posted && w'.seen == w.seen && w'.done == w.done
             && w'.q.held == w.q.held
    requires w'.q.pending == w.q.pending && InHand(w'.q.driver) == InHand(w.q.driver)
    ensures Partition(w') && Contents(w')
  {
    hide Cell, EntryOk, Window, Ids, Idx, Split, Delivered;
  }

  lemma PollKeeps(w: World)
    requires Inv(w) && Enabled(w, Poll) && IdsOk(w.q)
    ensures Inv(After(w, Poll)) && (After(w, Poll) != w <==> w.seen < |w.done|)
  {
    hide Cell, Window, Ids, Idx, Partition, Out;
    PlacesCount(w);
    IdxTells(w.seen, |w.done|);
    CellIdx(w.q.used, w.seen, UsedElem(0, 0));
    var w' := After(w, Poll);
    if w.seen < |w.done| {
      assert EntryOk(w.q.buf, Cell(w.q.used, w.seen), w.done[w.seen]);
      SamePlaces(w, w');
    }
  }

  lemma CopyKeeps(w: World)
    requires Inv(w) && Enabled(w, Copy) && IdsOk(w.q)
    ensures Inv(After(w, Copy))
  {
    hide Cell, Window, Ids, Idx, Partition, Out;
    var w' := After(w, Copy);
    assert EntryOk(w.q.buf, Cell(w.q.used, w.seen), w.done[w.seen]);
    SamePlaces(w, w');
    hide Contents, EntryOk;
  }

  lemma BumpPartition(w: World, w': World)
    requires Shaped(w.q) && Counts(w) && Partition(w) && Contents(w) && Delivered(w) && w.q.driver.Copied?
    requires Shaped(w'.q) && Counts(w') && w'.q == w.q.(driver := Bumped(w.q.driver.id), usedSeen := w'.q.usedSeen)
    requires w' == w.(q := w'.q, seen := w.seen + 1)
    ensures Partition(w')
  {
    hide Cell, Idx, Out, Split, Window, Ids;
    assert EntryOk(w.q.buf, Cell(w.q.used, w.seen), w.done[w.seen]);
    WindowPop(w.q.used, w.seen, |w.done|);
    IdsParts([Cell(w.q.used, w.seen)], Window(w.q.used, w.seen + 1, |w.done|));
    IdsOne(Cell(w.q.used, w.seen));
    SplitBump(Posted(w), w.q.held, Publishing(w.q), Completed(w), Completed(w'), w.q.driver.id);
  }

  lemma IdsOne(e: UsedElem)
    ensures Ids([e]) == [e.id]
  {
  }

  lemma SplitBump(p: seq<nat>, h: seq<nat>, u: seq<nat>, c: seq<nat>, c': seq<nat>, x: nat)
    requires Split(p, h, u, c, []) && c == [x] + c'
    ensures Split(p, h, u, c', [x])
  {
  }

  lemma SplitPost(p: seq<nat>, h: seq<nat>, u: seq<nat>, c: seq<nat>, x: nat)
    requires Split(p, h, u, c, [x])
    ensures Split(p + [x], h, u, c, [])
  {
  }

  lemma SplitTake(p: seq<nat>, p': seq<nat>, h: seq<nat>, u: seq<nat>, c: seq<nat>, a: seq<nat>, x: nat)
    requires Split(p, h, u, c, a) && p == [x] + p'
    ensures Split(p', h + [x], u, c, a)
  {
  }

  lemma SplitWrite(p: seq<nat>, h: seq<nat>, u: seq<nat>, c: seq<nat>, a: seq<nat>, j: nat)
    requires Split(p, h, u, c, a) && j < |h|
    ensures Split(p, Without(h, j), u + [h[j]], c, a)
  {
    WithoutMulti(h, j);
    hide Without;
  }

  lemma SplitPublish(p: seq<nat>, h: seq<nat>, u: seq<nat>, u': seq<nat>, c: seq<nat>, a: seq<nat>)
    requires Split(p, h, u + u', c, a)
    ensures Split(p, h, u', c + u, a)
  {
  }

  lemma BumpKeeps(w: World)
    requires Inv(w) && Enabled(w, Bump) && IdsOk(w.q)
    ensures Inv(After(w, Bump))
  {
    hide Cell, Window, Ids, Idx, Partition, Out, Next, EntryOk;
    var w' := After(w, Bump);
    IdxNext(w.seen);
    BumpPartition(w, w');
  }

  /** Re-posting writes an entry the device has already consumed. */
  lemma RepostIsSafe(w: World, k: nat)
    requires Inv(w) && Enabled(w, Store) && IdsOk(w.q) && w.taken <= k < w.posted
    ensures Cell(After(w, Store).q.avail, k) == Cell(w.q.avail, k)
  {
    hide Cell, Window, Ids, Idx, Partition, Out, Contents, Delivered, Put;
    PlacesCount(w);
    CellIdx(w.q.avail, w.posted, w.q.driver.id);
    CellPut(w.q.avail, k, w.posted, w.q.driver.id);
  }

  lemma StoreKeeps(w: World)
    requires Inv(w) && Enabled(w, Store) && IdsOk(w.q)
    ensures Inv(After(w, Store))
  {
    hide Cell, Window, Ids, Idx, Out, Put, EntryOk, Split;
    PlacesCount(w);
    CellIdx(w.q.avail, w.posted, w.q.driver.id);
    CellPut(w.q.avail, w.posted, w.posted, w.q.driver.id);
    WindowKept(w.q.avail, w.taken, w.posted, w.posted, w.q.driver.id);
  }

  lemma PostPartition(w: World, w': World)
    requires Shaped(w.q) && Counts(w) && Partition(w) && Delivered(w) && w.q.driver.Stored?
    requires Shaped(w'.q) && Counts(w') && w'.q == w.q.(driver := Ready, availIdx := w'.q.availIdx)
             && w' == w.(q := w'.q, posted := w.posted + 1)
    ensures Partition(w')
  {
    hide Cell, Idx, Out, Split, Window, Ids;
    WindowPush(w.q.avail, w.taken, w.posted);
    SplitPost(Posted(w), w.q.held, Publishing(w.q), Completed(w), w.q.driver.id);
  }

  lemma PostKeeps(w: World)
    requires Inv(w) && Enabled(w, Post) && IdsOk(w.q)
    ensures Inv(After(w, Post))
  {
    hide Cell, Window, Ids, Idx, Partition, Out, Next, EntryOk;
    var w' := After(w, Post);
    IdxNext(w.posted);
    PostPartition(w, w');
  }

  // ---- the device ----

  lemma TakePartition(w: World, w': World)
    requires Shaped(w.q) && Counts(w) && Partition(w) && w.taken < w.posted && Shaped(w'.q) && Counts(w')
    requires w'.q == w.q.(lastAvail := w'.q.lastAvail, held := w.q.held + [Cell(w.q.avail, w.q.lastAvail)])
             && w' == w.(q := w'.q, taken := w.taken + 1)
    ensures Partition(w')
  {
    hide Cell, Idx, Out, Split, Window, Ids;
    WindowPop(w.q.avail, w.taken, w.posted);
    CellIdx(w.q.avail, w.taken, 0);
    SplitTake(Posted(w), Posted(w'), w.q.held, Publishing(w.q), Completed(w), InHand(w.q.driver),
      Cell(w.q.avail, w.taken));
  }

  lemma TakeKeeps(w: World)
    requires Inv(w) && Enabled(w, Take) && IdsOk(w.q)
    ensures Inv(After(w, Take)) && w.taken < w.posted
  {
    hide Cell, Window, Ids, Idx, Partition, Out, Next, EntryOk;
    var w' := After(w, Take);
    PlacesCount(w);
    IdxTells(w.taken, w.posted);
    IdxNext(w.taken);
    TakePartition(w, w');
  }

  lemma FillEntry(buf: seq<seq<int>>, x: nat, data: seq<int>, e: UsedElem, f: Frame)
    requires BufsOk(buf) && EntryOk(buf, e, f) && x < NUM && f.id != x && |data| == BUFSZ
    ensures BufsOk(buf[x := data]) && EntryOk(buf[x := data], e, f)
  {
  }

  lemma FillKeeps(w: World, j: nat, data: seq<int>)
    requires Inv(w) && Enabled(w, Fill(j, data)) && IdsOk(w.q)
    ensures Inv(After(w, Fill(j, data)))
  {
    hide Cell, Window, Ids, Idx, Out, EntryOk, Split;
    var w' := After(w, Fill(j, data));
    HeldApart(w, j);
    forall k | w.seen <= k < |w.done| ensures EntryOk(w'.q.buf, Cell(w'.q.used, k), w'.done[k]) {
      assert EntryOk(w.q.buf, Cell(w.q.used, k), w.done[k]);
      NotUnread(w, w.q.held[j], k);
      FillEntry(w.q.buf, w.q.held[j], data, Cell(w.q.used, k), w.done[k]);
    }
  }

  lemma WithoutMulti(s: seq<nat>, j: nat)
    requires j < |s|
    ensures multiset(s) == multiset(Without(s, j)) + multiset([s[j]]) && |Without(s, j)| == |s| - 1
  {
    assert s == s[..j] + [s[j]] + s[j + 1..];
  }

  lemma WriteUsedPartition(w: World, w': World, j: nat, e: UsedElem)
    requires Shaped(w.q) && Counts(w) && Partition(w) && j < |w.q.held| && e.id == w.q.held[j] && Shaped(w'.q)
             && Counts(w')
    requires w' == w.(q := w'.q)
    requires w'.q == w.q.(held := Without(w.q.held, j), used := Put(w.q.used, |w.done| + |w.q.pending|, e),
             pending := w.q.pending + [e])
    ensures Partition(w')
  {
    hide Cell, Idx, Split, Window, Ids, Put, Without;
    PlacesCount(w);
    WindowKept(w.q.used, w.seen, |w.done|, |w.done| + |w.q.pending|, e);
    IdsParts(w.q.pending, [e]);
    IdsOne(e);
    SplitWrite(Posted(w), w.q.held, Publishing(w.q), Completed(w), InHand(w.q.driver), j);
  }

  /** A used entry is written where the driver has already read. */
  lemma WriteUsedKeeps(w: World, j: nat, len: nat)
    requires Inv(w) && Enabled(w, WriteUsed(j, len)) && IdsOk(w.q)
    ensures Inv(After(w, WriteUsed(j, len)))
  {
    hide Cell, Window, Ids, Idx, Partition, Out, Next, Put, EntryOk, Without;
    var w', e, n, m := After(w, WriteUsed(j, len)), UsedElem(w.q.held[j], len), |w.done|, |w.q.pending|;
    PlacesCount(w);
    WithoutMulti(w.q.held, j);
    PutAhead(w.q.used, n, m, e);
    forall k | w.seen <= k < n ensures EntryOk(w'.q.buf, Cell(w'.q.used, k), w'.done[k]) {
      assert EntryOk(w.q.buf, Cell(w.q.used, k), w.done[k]);
      CellPut(w.q.used, k, n + m, e);
    }
    forall k | 0 <= k < m + 1 ensures Cell(w'.q.used, n + k) == w'.q.pending[k] && w'.q.pending[k].len <= BUFSZ {
      CellPut(w.q.used, n + k, n + m, e);
    }
    WriteUsedPartition(w, w', j, e);
  }

  lemma PublishPartition(w: World, w': World, n: nat)
    requires Shaped(w.q) && Counts(w) && Partition(w) && Contents(w) && n <= |w.q.pending| && Shaped(w'.q) && Counts(w')
    requires w'.q == w.q.(pending := w.q.pending[n..], usedIdx := w'.q.usedIdx) && |w'.done| == |w.done| + n
             && w' == w.(q := w'.q, done := w'.done)
    ensures Partition(w')
  {
    hide Cell, Idx, Split, Window, Ids, EntryOk;
    var now, rest := w.q.pending[..n], w.q.pending[n..];
    WindowGrows(w.q.used, w.seen, |w.done|, now);
    IdsParts(Window(w.q.used, w.seen, |w.done|), now);
    assert now + rest == w.q.pending;
    IdsParts(now, rest);
    SplitPublish(Posted(w), w.q.held, Ids(now), Ids(rest), Completed(w), InHand(w.q.driver));
  }

  lemma PublishedEntry(w: World, n: nat, k: nat)
    requires Inv(w) && IdsOk(w.q) && k < n <= |w.q.pending|
    ensures EntryOk(w.q.buf, Cell(w.q.used, |w.done| + k), Frames(w.q.buf, w.q.pending[..n])[k])
  {
    hide Cell, Partition, Delivered;
  }

  /** One index update hands any number of written entries to the driver. */
  lemma PublishKeeps(w: World, n: nat)
    requires Inv(w) && Enabled(w, Publish(n)) && IdsOk(w.q)
    ensures Inv(After(w, Publish(n)))
  {
    hide Cell, Window, Ids, Idx, Partition, Out, Next, EntryOk, Frames;
    var w', m := After(w, Publish(n)), |w.done|;
    IdxPlus(m, n);
    forall k | w.seen <= k < m + n ensures EntryOk(w'.q.buf, Cell(w'.q.used, k), w'.done[k]) {
      if k < m {
        assert EntryOk(w.q.buf, Cell(w.q.used, k), w.done[k]);
      } else {
        PublishedEntry(w, n, k - m);
      }
    }
    forall k | 0 <= k < |w'.q.pending|
      ensures Cell(w'.q.used, m + n + k) == w'.q.pending[k] && w'.q.pending[k].len <= BUFSZ {
      assert Cell(w.q.used, m + (n + k)) == w.q.pending[n + k];
    }
    PublishPartition(w, w', n);
  }

  /** Every step of driver and device keeps the invariant. */
  lemma StepKeeps(w: World, s: Step)
    requires Inv(w) && Enabled(w, s)
    ensures IdsOk(w.q) && Inv(After(w, s))
  {
    InvIds(w);
    hide Inv, After, Enabled;
    match s
    case Poll => PollKeeps(w);
    case Copy => CopyKeeps(w);
    case Bump => BumpKeeps(w);
    case Store => StoreKeeps(w);
    case Post => PostKeeps(w);
    case Take => TakeKeeps(w);
    case Fill(j, data) => FillKeeps(w, j, data);
    case WriteUsed(j, len) => WriteUsedKeeps(w, j, len);
    case Publish(n) => PublishKeeps(w, n);
  }

  // ---- runs ----

  ghost predicate Run(ws: seq<World>, ss: seq<Step>) {
    && |ws| == |ss| + 1 && Inv(ws[0])
    && forall n :: 0 <= n < |ss| ==> Follows(ws[n], ss[n], ws[n + 1])
  }

  ghost predicate Follows(w: World, s: Step, w': World) {
    Enabled(w, s) && (Shaped(w.q) && IdsOk(w.q) ==> w' == After(w, s))
  }

  lemma {:induction false} RunKeeps(ws: seq<World>, ss: seq<Step>, n: nat)
    requires Run(ws, ss) && n < |ws|
    ensures Inv(ws[n])
  {
    hide Inv, After, Enabled, IdsOk, Shaped;
    if n > 0 {
      RunKeeps(ws, ss, n - 1);
      assert Follows(ws[n - 1], ss[n - 1], ws[n]);
      InvShaped(ws[n - 1]);
      StepKeeps(ws[n - 1], ss[n - 1]);
    }
  }

  lemma InvShaped(w: World)
    requires Inv(w)
    ensures Shaped(w.q)
  {
  }

  /** In every reachable state each buffer is in exactly one place. */
  lemma OnePlace(w: World, x: nat)
    requires Inv(w) && x < NUM
    ensures multiset(Posted(w))[x] + multiset(w.q.held)[x] + multiset(Publishing(w.q))[x]
            + multiset(Completed(w))[x] + multiset(InHand(w.q.driver))[x] == 1
  {
    PlacesOf(w, x);
    hide Inv, Partition, Counts;
  }

  /** Between calls of eth_rx, avail idx and used_seen differ by the queue size, modulo 2^16. */
  lemma BetweenCalls(w: World)
    requires Inv(w) && w.q.driver.Ready?
    ensures w.posted == w.seen + NUM && (w.q.availIdx - w.q.usedSeen) % 65536 == 8
  {
    hide Partition, Contents, Delivered, Idx;
    PlacesCount(w);
    IdxDistance(w.seen);
  }

  lemma IdxDistance(a: nat)
    ensures (Idx(a + NUM) - Idx(a)) % WRAP == NUM
  {
    var i := Idx(a);
    assert a == a / WRAP * WRAP + i;
    if i + NUM < WRAP {
      assert (a + NUM) % WRAP == i + NUM;
    } else {
      assert (a + NUM) % WRAP == i + NUM - WRAP;
      assert (NUM - WRAP) % WRAP == NUM;
    }
  }

  /**
    Between calls the driver has delivered exactly the first completed frames, in order: the
    bytes after the 12 of the virtio header, as many as the caller's buffer takes.
   */
  lemma DeliveredInOrder(w: World)
    requires Inv(w) && w.q.driver.Ready?
    ensures |w.got| == w.seen <= |w.done|
    ensures forall k :: 0 <= k < |w.got| ==> IsPayload(w.got[k], w.done[k].data, w.max)
  {
    forall k | 0 <= k < |w.got| ensures IsPayload(w.got[k], w.done[k].data, w.max) {
      assert w.got[k] == Out(w.done[k].data, w.max);
    }
  }

  /** What the caller is to get of a buffer that the device filled. */
  predicate IsPayload(got: seq<int>, data: seq<int>, max: nat) {
    && |got| == (if |data| <= 12 then 0 else if |data| - 12 < max then |data| - 12 else max)
    && forall i :: 0 <= i < |got| ==> got[i] == data[12 + i]
  }

  /** Eight buffers of 2048 bytes. */
  lemma BufferSizes(w: World)
    requires Inv(w)
    ensures |w.q.buf| == 8 && forall i :: 0 <= i < 8 ==> |w.q.buf[i]| == 2048
  {
    hide Counts, Partition, Contents, Delivered;
  }

  // ---- net_init ----

  /** The loop of net_init that offers every buffer to the device. */
  method PostBuffers(ring: array<nat>)
    requires ring.Length == NUM
    modifies ring
    ensures forall i :: 0 <= i < NUM ==> ring[i] == i
  {
    for i := 0 to NUM
      invariant forall k :: 0 <= k < i ==> ring[k] == k
    {
      ring[i] := i;
    }
  }

  /** After net_init: eight buffers posted, nothing taken, nothing completed. */
  ghost predicate Start(w: World) {
    && Shaped(w.q) && (forall i :: 0 <= i < NUM ==> w.q.avail[i] == i) && w.q.availIdx == NUM
    && w.q.usedIdx == 0 && w.q.usedSeen == 0 && w.q.lastAvail == 0 && w.q.held == [] && w.q.driver == Ready
    && w.q.pending == []
    && w.posted == NUM && w.taken == 0 && w.seen == 0 && w.done == [] && w.got == []
  }

  lemma StartInv(w: World)
    requires Start(w)
    ensures Inv(w)
  {
    assert Counts(w);
    var p := Posted(w);
    forall i | 0 <= i < NUM ensures p[i] == i { assert Cell(w.q.avail, i) == w.q.avail[i]; }
    assert p == [0, 1, 2, 3, 4, 5, 6, 7];
    assert Completed(w) == [];
  }
}
