/**
  The receive queue of src/net.c: driver and device share two rings of eight entries with
  16-bit wrapping indices (section 2.7 of VIRTIO 1.2).  Steps of eth_rx and steps of the
  device interleave freely; the device may return buffers in any order and publish any
  number of used entries with one index update.
 */
module RxRing {

  const NUM: nat := 8
  const NETHDR: nat := 12
  const BUFSZ: nat := 2048
  const WRAP: nat := 0x1_0000

  datatype UsedElem = UsedElem(id: nat, len: nat)

  /** Where eth_rx is. */
  datatype Driver = Ready | Fetched(id: nat, len: nat) | Copied(id: nat) | Bumped(id: nat) | Stored(id: nat)

  /**
    The shared rings, the driver's and the device's private indices, the used entries written
    and not yet published, and the buffers.
   */
  datatype Queue = Queue(avail: seq<nat>, availIdx: nat, used: seq<UsedElem>, usedIdx: nat, usedSeen: nat,
                         lastAvail: nat, held: seq<nat>, buf: seq<seq<int>>, driver: Driver, pending: seq<UsedElem>)

  datatype Frame = Frame(id: nat, data: seq<int>)

  /** The queue with unbounded counts of what happened, the frames completed and the frames eth_rx delivered. */
  datatype World = World(q: Queue, posted: nat, taken: nat, seen: nat, done: seq<Frame>, got: seq<seq<int>>, max: nat)

  /** What eth_rx copies out of a buffer: the frame without the virtio header, cut at max. */
  function Out(data: seq<int>, max: nat): seq<int> {
    if |data| <= NETHDR then [] else data[NETHDR..NETHDR + (if |data| - NETHDR > max then max else |data| - NETHDR)]
  }

  /** A 16-bit index for an unbounded count, and its increment. */
  function Idx(a: nat): nat { a % WRAP }
  function Next(i: nat): nat { (i + 1) % WRAP }

  /** The ring entry an index or count stands for. */
  function Cell<T>(ring: seq<T>, i: nat): T
    requires |ring| == NUM
  {
    ring[i % NUM]
  }

  function Put<T>(ring: seq<T>, i: nat, x: T): (r: seq<T>)
    requires |ring| == NUM
    ensures |r| == NUM
  {
    ring[i % NUM := x]
  }

  datatype Step = Poll | Copy | Bump | Store | Post          // eth_rx
                | Take | Fill(j: nat, data: seq<int>) | WriteUsed(j: nat, len: nat) | Publish(n: nat)   // the device

  predicate Enabled(w: World, s: Step) {
    var q := w.q;
    match s
    case Poll => q.driver.Ready?
    case Copy => q.driver.Fetched?
    case Bump => q.driver.Copied?
    case Store => q.driver.Bumped?
    case Post => q.driver.Stored?
    case Take => q.lastAvail != q.availIdx
    case Fill(j, data) => j < |q.held| && |data| == BUFSZ
    case WriteUsed(j, len) => j < |q.held| && len <= BUFSZ
    case Publish(n) => 0 < n <= |q.pending|
  }

  function Without(s: seq<nat>, j: nat): seq<nat>
    requires j < |s|
  {
    s[..j] + s[j + 1..]
  }

  predicate Shaped(q: Queue) {
    |q.avail| == NUM && |q.used| == NUM && BufsOk(q.buf)
  }

  /** Ids in range, where an action uses one. */
  predicate IdsOk(q: Queue) {
    && (q.driver.Fetched? ==> q.driver.id < NUM && q.driver.len <= BUFSZ)
    && (forall k :: 0 <= k < |q.pending| ==> q.pending[k].id < NUM && q.pending[k].len <= BUFSZ)
    && (forall j :: 0 <= j < |q.held| ==> q.held[j] < NUM)
  }

  function After(w: World, s: Step): World
    requires Enabled(w, s) && Shaped(w.q) && IdsOk(w.q)
  {
    var q := w.q;
    match s
    case Poll =>
      if q.usedIdx == q.usedSeen then w
      else var e := Cell(q.used, q.usedSeen); w.(q := q.(driver := Fetched(e.id, e.len)))
    case Copy => w.(q := q.(driver := Copied(q.driver.id)),
      got := w.got + [Out(q.buf[q.driver.id][..q.driver.len], w.max)])
    case Bump => w.(q := q.(driver := Bumped(q.driver.id), usedSeen := Next(q.usedSeen)), seen := w.seen + 1)
    case Store => w.(q := q.(driver := Stored(q.driver.id), avail := Put(q.avail, q.availIdx, q.driver.id)))
    case Post => w.(q := q.(driver := Ready, availIdx := Next(q.availIdx)), posted := w.posted + 1)
    case Take => w.(q := q.(lastAvail := Next(q.lastAvail), held := q.held + [Cell(q.avail, q.lastAvail)]),
      taken := w.taken + 1)
    case Fill(j, data) => w.(q := q.(buf := q.buf[q.held[j] := data]))
    case WriteUsed(j, len) =>
      var e := UsedElem(q.held[j], len);
      w.(q := q.(held := Without(q.held, j), used := Put(q.used, q.usedIdx + |q.pending|, e),
        pending := q.pending + [e]))
    case Publish(n) =>
      w.(q := q.(pending := q.pending[n..], usedIdx := (q.usedIdx + n) % WRAP),
        done := w.done + Frames(q.buf, q.pending[..n]))
  }

  /** The frames that a batch of used entries completes. */
  function Frames(buf: seq<seq<int>>, es: seq<UsedElem>): (fs: seq<Frame>)
    requires BufsOk(buf) && forall k :: 0 <= k < |es| ==> es[k].id < NUM && es[k].len <= BUFSZ
    ensures |fs| == |es|
  {
    seq(|es|, k requires 0 <= k < |es| => Frame(es[k].id, buf[es[k].id][..es[k].len]))
  }

  // ---- who has which buffer ----

  /** Ring positions from r up to w, oldest first. */
  function Window<T>(ring: seq<T>, r: nat, w: nat): (s: seq<T>)
    requires |ring| == NUM && r <= w
    ensures |s| == w - r
  {
    seq(w - r, k requires 0 <= k => Cell(ring, r + k))
  }

  function Ids(es: seq<UsedElem>): (s: seq<nat>)
    ensures |s| == |es|
  {
    seq(|es|, k requires 0 <= k < |es| => es[k].id)
  }

  /** Waiting in the available ring for the device. */
  function Posted(w: World): seq<nat>
    requires Shaped(w.q) && w.taken <= w.posted
  {
    Window(w.q.avail, w.taken, w.posted)
  }

  /** Completed by the device and not yet seen by the driver. */
  function Completed(w: World): seq<nat>
    requires Shaped(w.q) && w.seen <= |w.done|
  {
    Ids(Window(w.q.used, w.seen, |w.done|))
  }

  /** In a used entry that is written and not yet published. */
  function Publishing(q: Queue): seq<nat> { Ids(q.pending) }

  /** In the driver's hands: read from the used ring and not yet posted again. */
  function InHand(d: Driver): seq<nat> { if d.Bumped? || d.Stored? then [d.id] else [] }

  ghost predicate Counts(w: World) {
    && w.seen <= |w.done| && w.taken <= w.posted && |w.done| + |w.q.held| + |w.q.pending| == w.taken
    && w.q.availIdx == Idx(w.posted) && w.q.lastAvail == Idx(w.taken)
    && w.q.usedIdx == Idx(|w.done|) && w.q.usedSeen == Idx(w.seen)
  }

  function All(): multiset<nat> { multiset{0, 1, 2, 3, 4, 5, 6, 7} }

  /** The five places together hold each of the eight buffers exactly once. */
  ghost predicate Split(posted: seq<nat>, held: seq<nat>, publishing: seq<nat>, completed: seq<nat>, inHand: seq<nat>) {
    multiset(posted) + multiset(held) + multiset(publishing) + multiset(completed) + multiset(inHand) == All()
  }

  ghost predicate Partition(w: World)
    requires Shaped(w.q) && Counts(w)
  {
    Split(Posted(w), w.q.held, Publishing(w.q), Completed(w), InHand(w.q.driver))
  }

  predicate BufsOk(buf: seq<seq<int>>) { |buf| == NUM && forall i :: 0 <= i < NUM ==> |buf[i]| == BUFSZ }

  /** A used entry that the driver has not read describes the frame the device completed, still in its buffer. */
  ghost predicate EntryOk(buf: seq<seq<int>>, e: UsedElem, f: Frame)
    requires BufsOk(buf)
  {
    e == UsedElem(f.id, |f.data|) && f.id < NUM && |f.data| <= BUFSZ && buf[f.id][..|f.data|] == f.data
  }

  ghost predicate Contents(w: World)
    requires Shaped(w.q) && Counts(w)
  {
    && (forall k :: w.seen <= k < |w.done| ==> EntryOk(w.q.buf, Cell(w.q.used, k), w.done[k]))
    && (forall k :: 0 <= k < |w.q.pending| ==>
      Cell(w.q.used, |w.done| + k) == w.q.pending[k] && w.q.pending[k].len <= BUFSZ)
  }

  /** What has been delivered, and what the driver has read and not yet acknowledged. */
  ghost predicate Delivered(w: World) {
    && |w.got| == w.seen + (if w.q.driver.Copied? then 1 else 0) && |w.got| <= |w.done|
    && (forall k :: 0 <= k < |w.got| ==> w.got[k] == Out(w.done[k].data, w.max))
    && (w.q.driver.Fetched? ==> w.seen < |w.done| && w.q.driver == Fetched(w.done[w.seen].id, |w.done[w.seen].data|))
    && (w.q.driver.Copied? ==> w.seen < |w.done| && w.q.driver == Copied(w.done[w.seen].id))
    && (w.q.driver.Stored? ==> |w.q.avail| == NUM && Cell(w.q.avail, w.posted) == w.q.driver.id)
  }

  ghost predicate Inv(w: World) { Shaped(w.q) && Counts(w) && Partition(w) && Contents(w) && Delivered(w) }

  // ---- windows ----

  lemma SlotsApart(a: nat, b: nat)
    requires a < b < a + NUM
    ensures a % NUM != b % NUM
  {
    assert a == a / 8 * 8 + a % 8 && b == b / 8 * 8 + b % 8;
  }

  /** Writing behind a window that does not fill the ring leaves the window alone. */
  lemma CellPut<T>(ring: seq<T>, k: nat, w: nat, x: T)
    requires |ring| == NUM && k <= w < k + NUM
    ensures Cell(Put(ring, w, x), k) == if k == w then x else Cell(ring, k)
  {
    if k < w { SlotsApart(k, w); }
  }

  lemma WindowKept<T>(ring: seq<T>, r: nat, w: nat, at: nat, x: T)
    requires |ring| == NUM && r <= w <= at < r + NUM
    ensures Window(Put(ring, at, x), r, w) == Window(ring, r, w)
  {
    hide Cell, Put;
    forall k | 0 <= k < w - r ensures Window(Put(ring, at, x), r, w)[k] == Window(ring, r, w)[k] {
      CellPut(ring, r + k, at, x);
    }
  }

  lemma WindowPop<T>(ring: seq<T>, r: nat, w: nat)
    requires |ring| == NUM && r < w
    ensures Window(ring, r, w) == [Cell(ring, r)] + Window(ring, r + 1, w)
  {
    hide Cell;
    var a, b := Window(ring, r, w), [Cell(ring, r)] + Window(ring, r + 1, w);
    forall k | 0 <= k < |a| ensures a[k] == b[k] {
      if k > 0 { assert r + 1 + (k - 1) == r + k; }
    }
  }

  /** Entries known one by one extend the window. */
  lemma WindowGrows<T>(ring: seq<T>, r: nat, w: nat, es: seq<T>)
    requires |ring| == NUM && r <= w && forall k :: 0 <= k < |es| ==> Cell(ring, w + k) == es[k]
    ensures Window(ring, r, w + |es|) == Window(ring, r, w) + es
  {
    hide Cell;
    var a, b := Window(ring, r, w + |es|), Window(ring, r, w) + es;
    forall k | 0 <= k < |a| ensures a[k] == b[k] {
      if k >= w - r { assert w + (k - (w - r)) == r + k; }
    }
  }

  lemma WindowPush<T>(ring: seq<T>, r: nat, w: nat)
    requires |ring| == NUM && r <= w
    ensures Window(ring, r, w + 1) == Window(ring, r, w) + [Cell(ring, w)]
  {
    hide Cell;
  }

  lemma IdsParts(a: seq<UsedElem>, b: seq<UsedElem>)
    ensures Ids(a + b) == Ids(a) + Ids(b)
  {
  }

  /** Two counts at most NUM apart are told apart by their 16-bit indices. */
  lemma IdxTells(a: nat, b: nat)
    requires a <= b <= a + NUM
    ensures Idx(a) == Idx(b) <==> a == b
  {
    assert a == a / WRAP * WRAP + a % WRAP && b == b / WRAP * WRAP + b % WRAP;
  }

  lemma IdxNext(a: nat)
    ensures Next(Idx(a)) == Idx(a + 1)
  {
  }

  lemma IdxPlus(a: nat, n: nat)
    ensures (Idx(a) + n) % WRAP == Idx(a + n)
  {
    assert a == a / WRAP * WRAP + a % WRAP;
    ModShift(a % WRAP + n, a / WRAP);
  }

  lemma {:induction false} ModShift(x: nat, q: nat)
    ensures (q * WRAP + x) % WRAP == x % WRAP
  {
    if q > 0 { ModShift(x, q - 1); }
  }

  /** The queue size divides 2^16: an index and its count stand for the same entry. */
  lemma IdxCell(a: nat)
    ensures Idx(a) % NUM == a % NUM
  {
    assert a % WRAP == a - a / WRAP * 8192 * 8;
  }

  /** The same for an entry k places on. */
  lemma PutAhead<T>(ring: seq<T>, a: nat, k: nat, x: T)
    requires |ring| == NUM
    ensures Put(ring, Idx(a) + k, x) == Put(ring, a + k, x)
  {
    IdxCell(a);
    hide Idx;
    assert (Idx(a) + k) % 8 == (a + k) % 8;
  }

  lemma CellIdx<T>(ring: seq<T>, a: nat, x: T)
    requires |ring| == NUM
    ensures Cell(ring, Idx(a)) == Cell(ring, a) && Put(ring, Idx(a), x) == Put(ring, a, x)
  {
    IdxCell(a);
    hide Idx;
  }
}
