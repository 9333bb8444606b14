/**
  The Internet checksum of src/net.c (section 1 of RFC 1071) and the packets that carry it:
  IP headers, UDP datagrams (RFC 768) and TCP segments (section 3.1 of RFC 9293).
 */
module Checksum {

  type byte = b: int | 0 <= b < 256
  type word = v: int | 0 <= v < 0x1_0000

  const M32: nat := 0x1_0000_0000
  /** Up to this length the 32-bit accumulator cannot overflow. */
  const MAXLEN: nat := 131074

  // ---- big-endian words ----

  function Get16(d: seq<byte>, i: nat): word
    requires i + 1 < |d|
  {
    (d[i] as int) * 256 + d[i + 1]
  }

  function Put16(d: seq<byte>, i: nat, v: word): (r: seq<byte>)
    requires i + 1 < |d|
    ensures |r| == |d| && Get16(r, i) == v
    ensures forall k :: 0 <= k < |d| && k != i && k != i + 1 ==> r[k] == d[k]
  {
    d[i := v / 256][i + 1 := v % 256]
  }

  /** The sum of all 16-bit words, an odd last byte padded with a zero. */
  function WordSum(d: seq<byte>): nat {
    if d == [] then 0 else if |d| == 1 then (d[0] as int) * 256 else Get16(d, 0) + WordSum(d[2..])
  }

  /** The same sum byte by byte from the other end: bytes at even places count 256 times. */
  function ByteSum(d: seq<byte>): nat {
    if d == [] then 0
    else ByteSum(d[..|d| - 1]) + (if |d| % 2 == 1 then 256 else 1) * (d[|d| - 1] as int)
  }

  lemma {:induction false} ByteSumTwo(d: seq<byte>)
    requires |d| >= 2
    ensures ByteSum(d) == 256 * (d[0] as int) + d[1] + ByteSum(d[2..])
    decreases |d|
  {
    if |d| == 2 {
      assert d[..1][..0] == [] && d[2..] == [];
    } else {
      ByteSumTwo(d[..|d| - 1]);
      assert d[..|d| - 1][2..] == d[2..][..|d[2..]| - 1];
    }
  }

  /** The word sum counts each byte by its place. */
  lemma {:induction false} WordSumIsByteSum(d: seq<byte>)
    ensures WordSum(d) == ByteSum(d)
    decreases |d|
  {
    if |d| == 1 {
      assert d[..0] == [];
    } else if |d| > 1 {
      ByteSumTwo(d);
      WordSumIsByteSum(d[2..]);
    }
  }

  /** The end-around carry. */
  function Fold(s: nat): nat {
    if s < 0x1_0000 then s else Fold(s % 0x1_0000 + s / 0x1_0000)
  }

  /** The checksum of RFC 1071: the complement of the one's complement sum. */
  function Sum16(d: seq<byte>): (c: int) { 0xffff - Fold(WordSum(d)) }

  // ---- what folding computes ----

  lemma FoldStep(s: nat)
    ensures (s % 0x1_0000 + s / 0x1_0000) % 0xffff == s % 0xffff
  {
    var q, r := s / 0x1_0000, s % 0x1_0000;
    assert s == r + q + q * 0xffff;
    AddMultiple(r + q, q);
  }

  lemma {:induction false} AddMultiple(a: nat, q: nat)
    ensures (a + q * 0xffff) % 0xffff == a % 0xffff
    decreases q
  {
    if q > 0 {
      AddMultiple(a, q - 1);
      assert a + q * 0xffff == (a + (q - 1) * 0xffff) + 0xffff;
    }
  }

  /** Folding is reduction modulo 65535, with 65535 for nonzero multiples. */
  lemma {:induction false} FoldIsMod(s: nat)
    ensures 0 <= Fold(s) < 0x1_0000 && Fold(s) % 0xffff == s % 0xffff && (Fold(s) == 0 <==> s == 0)
    decreases s
  {
    if s >= 0x1_0000 {
      FoldStep(s);
      FoldIsMod(s % 0x1_0000 + s / 0x1_0000);
    }
  }

  /** Adding the complement of a sum makes the folded sum all ones. */
  lemma Complement(s: nat, c: nat)
    requires c == 0xffff - Fold(s) || (Fold(s) == 0xffff && c == 0xffff)
    ensures Fold(s + c) == 0xffff
  {
    hide Fold;
    FoldIsMod(s);
    FoldIsMod(s + c);
    var f, r, q := Fold(s), s % 0xffff, s / 0xffff;
    assert s == q * 0xffff + r;
    if f == 0xffff {
      assert r == 0;
    } else {
      assert f == r;
    }
    assert (s + c) % 0xffff == 0 by {
      assert s + c == r + c + q * 0xffff;
      AddMultiple(r + c, q);
    }
    assert s + c > 0;
  }

  /** A receiver accepts exactly the data whose bytes, weighed by place, add up to a nonzero multiple of 65535. */
  lemma VerifiesMeans(d: seq<byte>)
    ensures Sum16(d) == 0 <==> ByteSum(d) > 0 && ByteSum(d) % 65535 == 0
  {
    WordSumIsByteSum(d);
    FoldIsMod(WordSum(d));
    hide WordSum, ByteSum, Fold;
  }

  // ---- word sums of updated and concatenated data ----

  /** Storing a word in a zeroed, even-aligned field adds exactly that word. */
  lemma {:induction false} PutAdds(d: seq<byte>, i: nat, v: word)
    requires i % 2 == 0 && i + 1 < |d| && d[i] == 0 && d[i + 1] == 0
    ensures WordSum(Put16(d, i, v)) == WordSum(d) + v
    decreases |d|
  {
    var r := Put16(d, i, v);
    if i == 0 {
      assert r[2..] == d[2..];
    } else {
      assert r[2..] == Put16(d[2..], i - 2, v);
      PutAdds(d[2..], i - 2, v);
    }
  }

  lemma {:induction false} SumConcat(a: seq<byte>, b: seq<byte>)
    requires |a| % 2 == 0
    ensures WordSum(a + b) == WordSum(a) + WordSum(b)
    decreases |a|
  {
    if a == [] {
      assert a + b == b;
    } else {
      assert (a + b)[2..] == a[2..] + b;
      SumConcat(a[2..], b);
    }
  }

  lemma {:induction false} SumBound(d: seq<byte>)
    ensures WordSum(d) <= (|d| + 1) / 2 * 0xffff
    decreases |d|
  {
    if |d| > 1 { SumBound(d[2..]); }
  }

  /** Filling the zeroed checksum field makes the recomputed checksum zero. */
  lemma FilledVerifies(d: seq<byte>, i: nat)
    requires i % 2 == 0 && i + 1 < |d| && d[i] == 0 && d[i + 1] == 0
    ensures 0 <= Sum16(d) < 0x1_0000 && Sum16(Put16(d, i, Sum16(d))) == 0
  {
    FoldIsMod(WordSum(d));
    PutAdds(d, i, Sum16(d));
    Complement(WordSum(d), Sum16(d));
  }

  /** UDP sends all ones instead of zero, which verifies just as well. */
  lemma AllOnesVerifies(d: seq<byte>, i: nat)
    requires i % 2 == 0 && i + 1 < |d| && d[i] == 0 && d[i + 1] == 0 && Sum16(d) == 0
    ensures Sum16(Put16(d, i, 0xffff)) == 0
  {
    PutAdds(d, i, 0xffff);
    Complement(WordSum(d), 0xffff);
  }

  // ---- the code ----

  /** One addition to the 32-bit accumulator. */
  function Add32(a: nat, b: nat): nat { (a + b) % M32 }

  /** The summing loop shared by cksum, udp_tx and tcp_send, onto what sum already holds. */
  method AddWords(start: nat, d: seq<byte>) returns (sum: nat)
    requires start < M32
    ensures sum == (start + WordSum(d)) % M32
  {
    hide SumsTo, Get16, WordSum;
    sum := start;
    var i := 0;
    AddNone(start, d);
    while i + 1 < |d|
      invariant i % 2 == 0 && i <= |d| && SumsTo(start, d, sum, i)
      decreases |d| - i
    {
      AddTurn(start, d, sum, i);
      sum := Add32(sum, Get16(d, i));
      i := i + 2;
    }
    OddTail(i, |d|);
    AddLast(start, d, sum, i);
    if |d| % 2 == 1 {
      sum := Add32(sum, (d[|d| - 1] as int) * 256);
    }
  }

  /** The accumulator and the words from byte i on make the whole sum. */
  predicate SumsTo(start: nat, d: seq<byte>, sum: nat, i: nat) {
    i <= |d| && sum < M32 && Add32(sum, WordSum(d[i..])) == Add32(start, WordSum(d))
  }

  lemma AddNone(start: nat, d: seq<byte>)
    requires start < M32
    ensures SumsTo(start, d, start, 0)
  {
    hide Add32;
    assert d[0..] == d;
  }

  lemma AddTurn(start: nat, d: seq<byte>, sum: nat, i: nat)
    requires SumsTo(start, d, sum, i) && i + 1 < |d|
    ensures SumsTo(start, d, Add32(sum, Get16(d, i)), i + 2)
  {
    WordSumTurn(d, i);
    AddAssoc(sum, Get16(d, i), WordSum(d[i + 2..]));
    hide WordSum, Get16, Add32;
  }

  lemma WordSumTurn(d: seq<byte>, i: nat)
    requires i + 1 < |d|
    ensures WordSum(d[i..]) == Get16(d, i) + WordSum(d[i + 2..])
  {
    assert d[i..][2..] == d[i + 2..] && Get16(d[i..], 0) == Get16(d, i);
  }

  lemma AddAssoc(a: nat, b: nat, c: nat)
    ensures Add32(Add32(a, b), c) == Add32(a, b + c) && Add32(a, b) < M32
  {
    ModAdd(a + b, c);
  }

  lemma OddTail(i: nat, n: nat)
    requires i % 2 == 0 && i <= n <= i + 1
    ensures n % 2 == 1 <==> i < n
  {
  }

  lemma TailSum(d: seq<byte>, i: nat)
    requires i <= |d| <= i + 1
    ensures WordSum(d[i..]) == if i < |d| then (d[i] as int) * 256 else 0
  {
  }

  /** The loop leaves at most one byte, which counts as a word's high half. */
  lemma AddLast(start: nat, d: seq<byte>, sum: nat, i: nat)
    requires SumsTo(start, d, sum, i) && |d| <= i + 1
    ensures Add32(start, WordSum(d)) == if i < |d| then Add32(sum, (d[i] as int) * 256) else sum
  {
    TailSum(d, i);
    hide WordSum;
    if i == |d| { SmallMod(sum); }
  }

  lemma ModAdd(a: nat, b: nat)
    ensures (a % M32 + b) % M32 == (a + b) % M32
  {
    var q, r := a / M32, a % M32;
    assert a == q * M32 + r;
    assert a + b == (r + b) + q * M32;
    ModMultiple(r + b, q);
  }

  lemma {:induction false} ModMultiple(a: nat, q: nat)
    ensures (a + q * M32) % M32 == a % M32
    decreases q
  {
    if q > 0 {
      ModMultiple(a, q - 1);
      assert a + q * M32 == (a + (q - 1) * M32) + M32;
    }
  }

  /** The folding loop. */
  method FoldLoop(s: nat) returns (sum: nat)
    ensures sum == Fold(s) && sum < 0x1_0000
  {
    sum := s;
    while sum / 0x1_0000 != 0
      invariant Fold(sum) == Fold(s)
      decreases sum
    {
      sum := sum % 0x1_0000 + sum / 0x1_0000;
    }
  }

  /** cksum: exact for any data whose sum fits, which every length up to MAXLEN guarantees. */
  method Cksum(d: seq<byte>) returns (c: word)
    ensures c == 0xffff - Fold(WordSum(d) % M32)
    ensures |d| <= MAXLEN ==> c == Sum16(d)
  {
    hide WordSum, Fold;
    if |d| <= MAXLEN { SumFits(d); }
    var sum := AddWords(0, d);
    sum := FoldLoop(sum);
    c := 0xffff - sum;
  }

  lemma SumFits(d: seq<byte>)
    requires |d| <= MAXLEN
    ensures WordSum(d) < M32 && WordSum(d) % M32 == WordSum(d)
  {
    hide WordSum;
    SumBound(d);
    assert (|d| + 1) / 2 <= 65537;
    SmallMod(WordSum(d));
  }

  /**
    For every length a C int can hold, the 32-bit accumulator gives the right checksum exactly
    when the sum fits in it.
   */
  lemma ExactIffFits(d: seq<byte>)
    requires |d| < 0x8000_0000
    ensures 0xffff - Fold(WordSum(d) % M32) == Sum16(d) <==> WordSum(d) < M32
  {
    hide WordSum, Fold;
    SumBound(d);
    var s := WordSum(d);
    var k, r := s / M32, s % M32;
    assert (|d| + 1) / 2 <= 0x4000_0000;
    assert s <= 0x4000_0000 * 0xffff;
    assert s == k * M32 + r && k < 0xffff;
    FoldIsMod(s);
    FoldIsMod(r);
    assert s == (k + r) + (k * 65537) * 0xffff;
    AddMultiple(k + r, k * 65537);
    if k > 0 { ShiftShows(r, k); }
  }

  /** Bytes of all ones. */
  function Ones(n: nat): (d: seq<byte>)
    ensures |d| == n
  {
    seq(n, i => 255)
  }

  lemma {:induction false} OnesSum(n: nat)
    ensures WordSum(Ones(2 * n)) == n * 0xffff
    decreases n
  {
    if n > 0 {
      OnesSum(n - 1);
      assert Ones(2 * n)[2..] == Ones(2 * (n - 1));
    }
  }

  /** Two bytes past MAXLEN: 131076 bytes of all ones sum to 2^32 + 65534, and the code's checksum is 1 instead of 0. */
  lemma OverflowShows()
    ensures |Ones(131076)| == MAXLEN + 2
    ensures 0xffff - Fold(WordSum(Ones(131076)) % M32) == 1 && Sum16(Ones(131076)) == 0
  {
    hide WordSum, Ones;
    OnesSum(65538);
    assert WordSum(Ones(131076)) == 65538 * 0xffff == M32 + 65534;
    FoldIsMod(WordSum(Ones(131076)));
    assert (65538 * 0xffff) % 0xffff == 0;
  }

  lemma ShiftShows(r: nat, k: nat)
    requires 0 < k < 0xffff
    ensures (k + r) % 0xffff != r % 0xffff
  {
    var q, m := r / 0xffff, r % 0xffff;
    assert r == q * 0xffff + m;
    AddMultiple(k + m, q);
    assert k + r == (k + m) + q * 0xffff;
  }

  /** The pseudo-header: both addresses, a zero, the protocol and the segment's length. */
  function Pseudo(src: seq<byte>, dst: seq<byte>, proto: byte, len: word): (p: seq<byte>)
    requires |src| == 4 && |dst| == 4
    ensures |p| == 12
  {
    src + dst + [0, proto] + [len / 256, len % 256]
  }

  lemma PseudoSum(src: seq<byte>, dst: seq<byte>, proto: byte, len: word)
    requires |src| == 4 && |dst| == 4
    ensures WordSum(Pseudo(src, dst, proto, len))
            == Get16(src, 0) + Get16(src, 2) + Get16(dst, 0) + Get16(dst, 2) + proto + len
  {
    var p := Pseudo(src, dst, proto, len);
    assert p[..] == p;
    SumTail(p, 0); SumTail(p, 2); SumTail(p, 4); SumTail(p, 6); SumTail(p, 8); SumTail(p, 10);
    assert p[0..] == p && p[12..] == [];
  }

  lemma SumTail(p: seq<byte>, i: nat)
    requires i + 1 < |p|
    ensures WordSum(p[i..]) == Get16(p, i) + WordSum(p[i + 2..])
  {
    assert p[i..][2..] == p[i + 2..];
  }

  /** The inline sums of udp_tx and tcp_send are the checksum of pseudo-header and segment together. */
  method SegmentChecksum(src: seq<byte>, dst: seq<byte>, proto: byte, segment: seq<byte>) returns (c: word)
    requires |src| == 4 && |dst| == 4 && |segment| < 0x1_0000
    ensures c == Sum16(Pseudo(src, dst, proto, |segment|) + segment)
  {
    hide WordSum, Fold, Pseudo, Get16;
    NoOverflow(src, dst, proto, segment);
    var sum: nat := Get16(src, 0) + Get16(src, 2) + Get16(dst, 0) + Get16(dst, 2);
    sum := sum + proto + |segment|;
    sum := AddWords(sum, segment);
    sum := FoldLoop(sum);
    c := 0xffff - sum;
  }

  lemma NoOverflow(src: seq<byte>, dst: seq<byte>, proto: byte, segment: seq<byte>)
    requires |src| == 4 && |dst| == 4 && |segment| < 0x1_0000
    ensures var start := Get16(src, 0) + Get16(src, 2) + Get16(dst, 0) + Get16(dst, 2) + proto + |segment|;
            && WordSum(Pseudo(src, dst, proto, |segment|) + segment) == start + WordSum(segment) < M32
            && (start + WordSum(segment)) % M32 == start + WordSum(segment)
  {
    hide WordSum, Pseudo, Get16;
    PseudoSum(src, dst, proto, |segment|);
    SumConcat(Pseudo(src, dst, proto, |segment|), segment);
    SegmentBound(segment);
    var start: nat := Get16(src, 0) + Get16(src, 2) + Get16(dst, 0) + Get16(dst, 2) + proto + |segment|;
    assert start <= 6 * 0xffff;
    SmallMod(start + WordSum(segment));
  }

  lemma SmallMod(s: nat)
    requires s < M32
    ensures s % M32 == s
  {
  }

  lemma SegmentBound(segment: seq<byte>)
    requires |segment| < 0x1_0000
    ensures WordSum(segment) <= 0x8000 * 0xffff
  {
    hide WordSum;
    SumBound(segment);
    assert (|segment| + 1) / 2 <= 0x8000;
  }

  // ---- packets ----

  const MY_IP: seq<byte> := [10, 0, 2, 15]
  const UDP: byte := 17
  const TCP: byte := 6

  method Put16At(p: array<byte>, i: nat, v: word)
    requires i + 1 < p.Length
    modifies p
    ensures p[..] == Put16(old(p[..]), i, v)
  {
    p[i] := v / 256;
    p[i + 1] := v % 256;
  }

  method Put32At(p: array<byte>, i: nat, v: nat)
    requires i + 3 < p.Length && v < M32
    modifies p
    ensures p[..] == Put16(Put16(old(p[..]), i, v / 0x1_0000), i + 2, v % 0x1_0000)
  {
    Put16At(p, i, v / 0x1_0000);
    Put16At(p, i + 2, v % 0x1_0000);
  }

  method CopyAt(p: array<byte>, i: nat, s: seq<byte>)
    requires i + |s| <= p.Length
    modifies p
    ensures forall k :: 0 <= k < p.Length ==> p[k] == if i <= k < i + |s| then s[k - i] else old(p[k])
  {
    for k := 0 to |s|
      invariant forall j :: 0 <= j < p.Length ==> p[j] == if i <= j < i + k then s[j - i] else old(p[j])
    {
      p[i + k] := s[k];
    }
  }

  /** A prefix of the packet with its checksum field filled. */
  lemma PrefixFilled(d: seq<byte>, n: nat, i: nat, v: word)
    requires i + 1 < n <= |d|
    ensures Put16(d, i, v)[..n] == Put16(d[..n], i, v) && Put16(d, i, v)[n..] == d[n..]
  {
  }

  /** The 20-byte IP header in front of a payload; its checksum verifies. */
  method IpHeader(p: array<byte>, iplen: word, proto: byte, dst: seq<byte>)
    requires p.Length >= 20 && |dst| == 4
    modifies p
    ensures IpHeaderOk(p[..], iplen, proto, dst) && p[20..] == old(p[20..])
  {
    ghost var rest := p[20..];
    IpFront(p, iplen, proto);
    CopyAt(p, 12, MY_IP);
    CopyAt(p, 16, dst);
    assert p[20..] == rest;
    assert p[..][12..16] == MY_IP && p[..][16..20] == dst;
    IpFinish(p, iplen, proto, dst);
  }

  /** The first twelve bytes, with an empty checksum field. */
  method IpFront(p: array<byte>, iplen: word, proto: byte)
    requires p.Length >= 20
    modifies p
    ensures IpFirst(p[..], iplen, proto) && p[10] == 0 && p[11] == 0
    ensures forall k :: 12 <= k < p.Length ==> p[k] == old(p[k])
  {
    p[0] := 0x45;
    p[1] := 0;
    Put16At(p, 2, iplen);
    Put16At(p, 4, 0);
    Put16At(p, 6, 0);
    p[8] := 64;
    p[9] := proto;
    Put16At(p, 10, 0);
  }

  method IpFinish(p: array<byte>, ghost iplen: word, ghost proto: byte, ghost dst: seq<byte>)
    requires p.Length >= 20 && |dst| == 4 && p[10] == 0 && p[11] == 0 && IpFields(p[..], iplen, proto, dst)
    modifies p
    ensures IpHeaderOk(p[..], iplen, proto, dst) && p[20..] == old(p[20..])
  {
    hide Sum16;
    ghost var d := p[..];
    var c := Cksum(p[..20]);
    assert d[..20] == p[..20];
    FilledVerifies(d[..20], 10);
    PrefixFilled(d, 20, 10, c);
    Put16At(p, 10, c);
    assert p[20..] == p[..][20..];
    FieldsKept(d, p[..], iplen, proto, dst);
  }

  /** The number in two bytes, high byte first. */
  function Be16(d: seq<byte>, i: nat): nat
    requires i + 1 < |d|
  {
    var b0: int, b1: int := d[i], d[i + 1];
    0x100 * b0 + b1
  }

  /**
    The first ten bytes of an IP header: version and length 0x45, service 0, total length, no
    fragments, TTL 64, protocol.
   */
  predicate IpFirst(d: seq<byte>, iplen: nat, proto: byte) {
    && |d| >= 20 && d[0] == 0x45 && d[1] == 0 && Be16(d, 2) == iplen
    && d[4] == 0 && d[5] == 0 && d[6] == 0 && d[7] == 0 && d[8] == 64 && d[9] == proto
  }

  /** All of it but the checksum. */
  predicate IpFields(d: seq<byte>, iplen: nat, proto: byte, dst: seq<byte>) {
    IpFirst(d, iplen, proto) && d[12..16] == [10, 0, 2, 15] && d[16..20] == dst
  }

  lemma FieldsKept(d: seq<byte>, d': seq<byte>, iplen: nat, proto: byte, dst: seq<byte>)
    requires IpFields(d, iplen, proto, dst) && |d'| >= 20
    requires forall k :: 0 <= k < 20 && k != 10 && k != 11 ==> d'[k] == d[k]
    ensures IpFields(d', iplen, proto, dst)
  {
    assert d'[12..16] == d[12..16] && d'[16..20] == d[16..20];
  }

  /** Filling a field of the segment fills the same field of pseudo-header and segment together. */
  lemma PseudoPut(pseudo: seq<byte>, seg: seq<byte>, i: nat, v: word)
    requires i + 1 < |seg|
    ensures Put16(pseudo + seg, |pseudo| + i, v) == pseudo + Put16(seg, i, v)
  {
  }

  /** The UDP checksum field: a computed zero is sent as all ones, and either verifies. */
  lemma UdpVerifies(pseudo: seq<byte>, seg: seq<byte>)
    requires |pseudo| % 2 == 0 && |seg| >= 8 && seg[6] == 0 && seg[7] == 0
    ensures var c := Sum16(pseudo + seg);
            0 <= c < 0x1_0000 && Sum16(pseudo + Put16(seg, 6, if c != 0 then c else 0xffff)) == 0
  {
    hide Sum16, Put16;
    var d := pseudo + seg;
    FilledVerifies(d, |pseudo| + 6);
    if Sum16(d) == 0 { AllOnesVerifies(d, |pseudo| + 6); }
    PseudoPut(pseudo, seg, 6, if Sum16(d) != 0 then Sum16(d) else 0xffff);
  }

  lemma TcpVerifies(pseudo: seq<byte>, seg: seq<byte>)
    requires |pseudo| % 2 == 0 && |seg| >= 20 && seg[16] == 0 && seg[17] == 0
    ensures var c := Sum16(pseudo + seg); 0 <= c < 0x1_0000 && Sum16(pseudo + Put16(seg, 16, c)) == 0
  {
    hide Sum16, Put16;
    FilledVerifies(pseudo + seg, |pseudo| + 16);
    PseudoPut(pseudo, seg, 16, Sum16(pseudo + seg));
  }

  /** The middle of the packet with a field filled. */
  lemma SegmentFilled(d: seq<byte>, n: nat, i: nat, v: word)
    requires 20 <= n <= |d| && 20 + i + 1 < n
    ensures Put16(d, 20 + i, v)[20..n] == Put16(d[20..n], i, v) && Put16(d, 20 + i, v)[..20] == d[..20]
  {
  }

  /** Everything but the two bytes of a field is as it was. */
  ghost predicate SameBut(d: seq<byte>, d': seq<byte>, i: nat) {
    |d'| == |d| && forall k :: 0 <= k < |d| && k != i && k != i + 1 ==> d'[k] == d[k]
  }

  /** The end of udp_tx: pseudo-header sum, folding, and the field. */
  method UdpFinish(p: array<byte>, dst: seq<byte>, udplen: nat)
    requires |dst| == 4 && 8 <= udplen && 20 + udplen <= p.Length < 0x1_0000 && p[26] == 0 && p[27] == 0
    modifies p
    ensures SameBut(old(p[..]), p[..], 26) && (p[26] != 0 || p[27] != 0)
    ensures Sum16(Pseudo(MY_IP, dst, UDP, udplen) + p[20..20 + udplen]) == 0
  {
    hide Sum16, Pseudo;
    var n := 20 + udplen;
    ghost var d := p[..];
    var seg := p[20..n];
    var c := SegmentChecksum(MY_IP, dst, UDP, seg);
    UdpVerifies(Pseudo(MY_IP, dst, UDP, udplen), seg);
    var field := if c != 0 then c else 0xffff;
    SegmentFilled(d, n, 6, field);
    assert d[20..n] == seg;
    Put16At(p, 26, field);
    assert p[20..n] == p[..][20..n];
  }

  /** The end of tcp_send. */
  method TcpFinish(p: array<byte>, dst: seq<byte>, tcplen: nat)
    requires |dst| == 4 && 20 <= tcplen && 20 + tcplen <= p.Length < 0x1_0000 && p[36] == 0 && p[37] == 0
    modifies p
    ensures SameBut(old(p[..]), p[..], 36)
    ensures Sum16(Pseudo(MY_IP, dst, TCP, tcplen) + p[20..20 + tcplen]) == 0
  {
    hide Sum16, Pseudo;
    var n := 20 + tcplen;
    ghost var d := p[..];
    var seg := p[20..n];
    var c := SegmentChecksum(MY_IP, dst, TCP, seg);
    TcpVerifies(Pseudo(MY_IP, dst, TCP, tcplen), seg);
    SegmentFilled(d, n, 16, c);
    assert d[20..n] == seg;
    Put16At(p, 36, c);
    assert p[20..n] == p[..][20..n];
  }

  /** The IP header as read back from the packet. */
  ghost predicate IpHeaderOk(d: seq<byte>, iplen: nat, proto: byte, dst: seq<byte>)
  {
    IpFields(d, iplen, proto, dst) && Sum16(d[..20]) == 0
  }

  lemma HeaderKept(d: seq<byte>, d': seq<byte>, iplen: nat, proto: byte, dst: seq<byte>)
    requires IpHeaderOk(d, iplen, proto, dst) && |d'| >= 20 && d'[..20] == d[..20]
    ensures IpHeaderOk(d', iplen, proto, dst)
  {
    hide Sum16;
    assert forall k :: 0 <= k < 20 ==> d'[k] == d'[..20][k] == d[..20][k] == d[k];
    FieldsKept(d, d', iplen, proto, dst);
  }

  /** Ports and length of a UDP header, high byte first. */
  predicate UdpFields(d: seq<byte>, sport: nat, dport: nat, udplen: nat) {
    |d| >= 28 && Be16(d, 20) == sport && Be16(d, 22) == dport && Be16(d, 24) == udplen
  }

  /** The eight bytes of a UDP header with an empty checksum field. */
  method UdpHeader(p: array<byte>, sport: word, dport: word, udplen: word)
    requires p.Length >= 28
    modifies p
    ensures p[..20] == old(p[..20]) && p[28..] == old(p[28..])
    ensures UdpFields(p[..], sport, dport, udplen) && p[26] == 0 && p[27] == 0
  {
    Put16At(p, 20, sport);
    Put16At(p, 22, dport);
    Put16At(p, 24, udplen);
    Put16At(p, 26, 0);
  }

  /** udp_tx up to the hand-over to eth_tx: both checksums verify, and ports, length and payload are in place. */
  method UdpPacket(p: array<byte>, dst: seq<byte>, sport: word, dport: word, payload: seq<byte>) returns (iplen: nat)
    requires |dst| == 4 && 28 + |payload| <= p.Length < 0x1_0000
    modifies p
    ensures iplen == 28 + |payload| && IpHeaderOk(p[..], iplen, UDP, dst)
    ensures var n := 8 + |payload|; Sum16([10, 0, 2, 15] + dst + [0, 17] + [n / 256, n % 256] + p[20..iplen]) == 0
    ensures UdpFields(p[..], sport, dport, 8 + |payload|) && (p[26] != 0 || p[27] != 0) && p[28..iplen] == payload
  {
    hide Sum16;
    var udplen := 8 + |payload|;
    iplen := 20 + udplen;
    IpHeader(p, iplen, UDP, dst);
    ghost var d0 := p[..];
    UdpHeader(p, sport, dport, udplen);
    ghost var d1 := p[..];
    assert d1[..20] == p[..20];
    CopyAt(p, 28, payload);
    ghost var d2 := p[..];
    assert d2[..20] == d1[..20] && d2[28..iplen] == payload;
    UdpFinish(p, dst, udplen);
    ghost var d3 := p[..];
    assert d3[..20] == d2[..20] == d0[..20];
    HeaderKept(d0, d3, iplen, UDP, dst);
    assert p[28..iplen] == d2[28..iplen];
  }

  /** The number in four bytes, high byte first. */
  function Be32(d: seq<byte>, i: nat): nat
    requires i + 3 < |d|
  {
    var b0: int, b1: int, b2: int, b3: int := d[i], d[i + 1], d[i + 2], d[i + 3];
    0x100_0000 * b0 + 0x1_0000 * b1 + 0x100 * b2 + b3
  }

  /** Ports, sequence number and acknowledgement of a TCP header. */
  predicate TcpNums(d: seq<byte>, sport: nat, dport: nat, num: nat, ack: nat) {
    && |d| >= 40 && Be16(d, 20) == sport && Be16(d, 22) == dport
    && Be32(d, 24) == num && Be32(d, 28) == ack
  }

  /** All of it but the checksum: header length 5 words, flags, window 64240, no urgent data. */
  predicate TcpFields(d: seq<byte>, sport: nat, dport: nat, num: nat, ack: nat, flags: byte) {
    && TcpNums(d, sport, dport, num, ack)
    && d[32] == 0x50 && d[33] == flags && Be16(d, 34) == 64240 && d[38] == 0 && d[39] == 0
  }

  /** Ports and numbers of a TCP header. */
  method TcpNumbers(p: array<byte>, sport: word, dport: word, num: nat, ack: nat)
    requires p.Length >= 40 && num < M32 && ack < M32
    modifies p
    ensures forall k :: 0 <= k < p.Length && !(20 <= k < 32) ==> p[k] == old(p[k])
    ensures TcpNums(p[..], sport, dport, num, ack)
  {
    Put16At(p, 20, sport);
    Put16At(p, 22, dport);
    Put32At(p, 24, num);
    Put32At(p, 28, ack);
  }

  /** The twenty bytes of a TCP header with an empty checksum field. */
  method TcpHeader(p: array<byte>, sport: word, dport: word, num: nat, ack: nat, flags: byte)
    requires p.Length >= 40 && num < M32 && ack < M32
    modifies p
    ensures forall k :: 0 <= k < p.Length && !(20 <= k < 40) ==> p[k] == old(p[k])
    ensures TcpFields(p[..], sport, dport, num, ack, flags) && p[36] == 0 && p[37] == 0
  {
    TcpNumbers(p, sport, dport, num, ack);
    p[32] := 0x50;
    p[33] := flags;
    Put16At(p, 34, 64240);
    Put16At(p, 36, 0);
    Put16At(p, 38, 0);
  }

  /** tcp_send up to the hand-over to eth_tx. */
  method TcpPacket(p: array<byte>, dst: seq<byte>, sport: word, dport: word, num: nat, ack: nat, flags: byte,
                   data: seq<byte>) returns (iplen: nat)
    requires |dst| == 4 && 40 + |data| <= p.Length < 0x1_0000 && num < M32 && ack < M32
    modifies p
    ensures iplen == 40 + |data| && IpHeaderOk(p[..], iplen, TCP, dst)
    ensures var n := 20 + |data|; Sum16([10, 0, 2, 15] + dst + [0, 6] + [n / 256, n % 256] + p[20..iplen]) == 0
    ensures TcpFields(p[..], sport, dport, num, ack, flags) && p[40..iplen] == data
  {
    hide Sum16;
    var tcplen := 20 + |data|;
    iplen := 20 + tcplen;
    IpHeader(p, iplen, TCP, dst);
    ghost var d0 := p[..];
    TcpHeader(p, sport, dport, num, ack, flags);
    ghost var d1 := p[..];
    assert d1[..20] == d0[..20];
    CopyAt(p, 40, data);
    ghost var d2 := p[..];
    assert d2[..20] == d1[..20] && d2[40..iplen] == data;
    TcpFinish(p, dst, tcplen);
    ghost var d3 := p[..];
    assert d3[..20] == d2[..20] == d0[..20];
    HeaderKept(d0, d3, iplen, TCP, dst);
    assert p[40..iplen] == d2[40..iplen];
  }
}
