/**
  The console's input buffer of src/console.c: a ring of 128 bytes with backspace, as a
  queue of unread bytes.
 */
module Console {

  const INBUF: nat := 128
  const NEWLINE: char := '\n'

  function Normal(c: char): char { if c == '\r' then NEWLINE else c }

  predicate Erase(c: char) { c == 0x7f as char || c == 0x08 as char }

  /** What one keystroke does to the queue of unread bytes. */
  function Typed(q: seq<char>, c: char): seq<char> {
    if Erase(Normal(c)) then
      if q != [] && q[|q| - 1] != NEWLINE then q[..|q| - 1] else q
    else if |q| >= INBUF then q
    else q + [Normal(c)]
  }

  /** The keystroke completes a line, so readers must be woken. */
  predicate Completes(q: seq<char>, c: char) { Normal(c) == NEWLINE && |q| < INBUF }

  predicate HasLine(q: seq<char>) { NEWLINE in q }

  /** Everything up to the last newline. */
  function Lines(q: seq<char>): seq<char> {
    if q == [] || q[|q| - 1] == NEWLINE then q else Lines(q[..|q| - 1])
  }

  lemma {:induction false} LinesArePrefix(q: seq<char>)
    ensures Lines(q) <= q
  {
    if q != [] && q[|q| - 1] != NEWLINE { LinesArePrefix(q[..|q| - 1]); }
  }

  /**
    No keystroke takes back a completed line or overfills the buffer, and a line can only come
    from a completing one.
   */
  lemma TypedKeepsLines(q: seq<char>, c: char)
    requires |q| <= INBUF
    ensures |Typed(q, c)| <= INBUF && Lines(q) <= Typed(q, c)
    ensures !Completes(q, c) ==> Lines(Typed(q, c)) == Lines(q)
    ensures Completes(q, c) ==> Typed(q, c) == q + [NEWLINE] && Lines(Typed(q, c)) == Typed(q, c)
    ensures HasLine(Typed(q, c)) <==> HasLine(q) || Completes(q, c)
  {
    LinesArePrefix(q);
    if q != [] {
      assert q == q[..|q| - 1] + [q[|q| - 1]];
    }
    if !Erase(Normal(c)) && |q| < INBUF {
      assert (q + [Normal(c)])[..|q|] == q;
    }
    if q != [] && q[|q| - 1] != NEWLINE {
      LinesArePrefix(q[..|q| - 1]);
    }
  }

  // ---- what typing means ----

  /** The queue after a sequence of keys. */
  function TypedAll(q: seq<char>, keys: seq<char>): seq<char>
    decreases |keys|
  {
    if keys == [] then q else TypedAll(Typed(q, keys[0]), keys[1..])
  }

  /** Neither an end of line nor one of the two erasing keys. */
  predicate Ordinary(c: char) { c != '\n' && c != '\r' && c != 0x08 as char && c != 0x7f as char }

  /** An ordinary character joins the queue as it is; return counts as a newline; a full buffer takes neither. */
  lemma KeyStored(q: seq<char>, c: char)
    requires Ordinary(c) || c == '\n' || c == '\r'
    ensures Typed(q, c) == if |q| < 128 then q + [if c == '\r' then '\n' else c] else q
    ensures Completes(q, c) <==> (c == '\n' || c == '\r') && |q| < 128
  {
  }

  /** An erasing key takes back the last character of the unfinished line, and nothing else. */
  lemma KeyErases(q: seq<char>, c: char)
    requires c == 0x08 as char || c == 0x7f as char
    ensures Typed(q, c) == if q == [] || q[|q| - 1] == '\n' then q else q[..|q| - 1]
    ensures !Completes(q, c)
  {
  }

  /** So it undoes an ordinary character that was stored. */
  lemma EraseUndoes(q: seq<char>, c: char, del: char)
    requires Ordinary(c) && |q| < 128 && (del == 0x08 as char || del == 0x7f as char)
    ensures Typed(Typed(q, c), del) == q
  {
    KeyStored(q, c);
    KeyErases(q + [c], del);
    assert (q + [c])[..|q|] == q;
  }

  lemma {:induction false} TextStored(q: seq<char>, s: seq<char>)
    requires (forall i :: 0 <= i < |s| ==> Ordinary(s[i])) && |q| + |s| < 128
    ensures TypedAll(q, s + ['\r']) == q + s + ['\n']
    decreases |s|
  {
    var keys := s + ['\r'];
    assert keys[1..] == if s == [] then [] else s[1..] + ['\r'];
    KeyStored(q, keys[0]);
    if s == [] {
      assert q + s + ['\n'] == q + ['\n'];
    } else {
      TextStored(q + [s[0]], s[1..]);
      assert q + [s[0]] + s[1..] + ['\n'] == q + s + ['\n'];
    }
  }

  /** Ring positions r up to w, oldest first. */
  function Window(buf: seq<char>, r: nat, w: nat): (q: seq<char>)
    requires |buf| == INBUF && r <= w
    ensures |q| == w - r
  {
    seq(w - r, k requires 0 <= k => buf[(r + k) % INBUF])
  }

  /** A byte stored at position w lands behind everything unread. */
  lemma WindowPush(buf: seq<char>, r: nat, w: nat, c: char)
    requires |buf| == INBUF && r <= w < r + INBUF
    ensures Window(buf[w % INBUF := c], r, w + 1) == Window(buf, r, w) + [c]
  {
    var a, b := Window(buf[w % INBUF := c], r, w + 1), Window(buf, r, w) + [c];
    forall k | 0 <= k < |a| ensures a[k] == b[k] {
      if k < w - r { ModApart(r + k, w); }
    }
  }

  lemma WindowErase(buf: seq<char>, r: nat, w: nat)
    requires |buf| == INBUF && r < w
    ensures var q := Window(buf, r, w);
            q != [] && q[|q| - 1] == buf[(w - 1) % INBUF] && Window(buf, r, w - 1) == q[..|q| - 1]
  {
  }

  lemma WindowPop(buf: seq<char>, r: nat, w: nat)
    requires |buf| == INBUF && r < w
    ensures var q := Window(buf, r, w);
            q != [] && q[0] == buf[r % INBUF] && Window(buf, r + 1, w) == q[1..]
  {
    var a, b := Window(buf, r + 1, w), Window(buf, r, w)[1..];
    forall k | 0 <= k < |a| ensures a[k] == b[k] {
      assert r + 1 + k == r + (k + 1);
    }
  }

  lemma ShareStep(q: seq<char>, n: nat)
    requires q != [] && n > 0
    ensures Share(q, n) == if q[0] == NEWLINE then 1 else 1 + Share(q[1..], n - 1)
  {
  }

  lemma ModApart(a: nat, b: nat)
    requires a < b < a + INBUF
    ensures a % INBUF != b % INBUF
  {
    var qa, qb := a / INBUF, b / INBUF;
    assert a == qa * 128 + a % 128 && b == qb * 128 + b % 128;
  }

  /** What a reader that wants n bytes takes: through the first newline, or n bytes, or all there is. */
  function Share(q: seq<char>, n: nat): nat {
    if q == [] || n == 0 then 0 else if q[0] == NEWLINE then 1 else 1 + Share(q[1..], n - 1)
  }

  lemma {:induction false} ShareStops(q: seq<char>, n: nat)
    ensures Share(q, n) <= |q| && Share(q, n) <= n
    ensures forall k :: 0 <= k < Share(q, n) - 1 ==> q[k] != NEWLINE
    ensures Share(q, n) < n && Share(q, n) < |q| ==> Share(q, n) > 0 && q[Share(q, n) - 1] == NEWLINE
  {
    if q != [] && n > 0 && q[0] != NEWLINE {
      ShareStops(q[1..], n - 1);
      forall k | 0 <= k < Share(q, n) - 1 ensures q[k] != NEWLINE {
        if k > 0 { assert q[k] == q[1..][k - 1]; }
      }
    }
  }

  /** A reader of more bytes than the line has takes the whole line. */
  lemma {:induction false} LineShare(s: seq<char>, n: nat)
    requires (forall i :: 0 <= i < |s| ==> s[i] != '\n') && n > |s|
    ensures Share(s + ['\n'], n) == |s| + 1
    decreases |s|
  {
    var q := s + ['\n'];
    if s != [] {
      assert q[1..] == s[1..] + ['\n'];
      LineShare(s[1..], n - 1);
    }
  }

  /** What a reader of n bytes finds in its buffer when it comes after these keys on an empty console. */
  ghost predicate Delivers(keys: seq<char>, n: nat, out: seq<char>) {
    forall was, dst, left :: Moved(was, dst, TypedAll([], keys), left, 0, Share(TypedAll([], keys), n)) ==>
      dst[..Share(TypedAll([], keys), n)] == out && left == []
  }

  /** A line of up to 127 ordinary characters and return are delivered with a newline at the end. */
  lemma LineDelivered(s: seq<char>, n: nat)
    requires (forall i :: 0 <= i < |s| ==> Ordinary(s[i])) && |s| < 128 && n > |s|
    ensures Delivers(s + ['\r'], n, s + ['\n'])
  {
    TextStored([], s);
    assert [] + s + ['\n'] == s + ['\n'];
    LineShare(s, n);
    var q := s + ['\n'];
    hide TypedAll, Share;
    forall was, dst, left | Moved(was, dst, q, left, 0, |q|) ensures dst[..|q|] == q && left == [] {
      assert dst[0..|q|] == dst[..|q|];
      assert |dst[..|q|]| == |q|;
    }
  }

  class Console {
    const inbuf: array<char>
    var in_w: nat
    var in_r: nat

    ghost predicate Valid()
      reads this
    {
      inbuf.Length == INBUF && in_r <= in_w <= in_r + INBUF
    }

    /** The unread bytes, oldest first. */
    ghost function Queue(): (q: seq<char>)
      requires Valid()
      reads this, inbuf
      ensures |q| == in_w - in_r
    {
      Window(inbuf[..], in_r, in_w)
    }

    constructor ()
      ensures Valid() && fresh(inbuf) && Queue() == []
    {
      inbuf := new char[INBUF];
      in_w, in_r := 0, 0;
    }

    /** console_intr between acquire and release; the result says whether it calls wakeup. */
    method Intr(key: char) returns (wake: bool)
      requires Valid()
      modifies this, inbuf
      ensures Valid() && Queue() == Typed(old(Queue()), key) && in_r == old(in_r)
      ensures wake <==> Completes(old(Queue()), key)
      ensures wake <==> (key == '\n' || key == '\r') && |old(Queue())| < 128
    {
      hide Window;
      var c := key;
      if c == '\r' {
        c := '\n';
      }
      if in_r < in_w { WindowErase(inbuf[..], in_r, in_w); }
      if c == 0x7f as char || c == 0x08 as char {
        if in_w > in_r && inbuf[(in_w - 1) % INBUF] != '\n' {
          in_w := in_w - 1;
        }
        return false;
      }
      if in_w - in_r >= INBUF {
        return false;
      }
      WindowPush(inbuf[..], in_r, in_w, c);
      inbuf[in_w % INBUF] := c;
      in_w := in_w + 1;
      wake := c == '\n';
    }

    /** One turn of console_read's loop: the oldest unread byte goes to dst[i]. */
    method Take(dst: array<char>, i: nat) returns (c: char)
      requires Valid() && Queue() != [] && i < dst.Length && dst != inbuf
      modifies this`in_r, dst
      ensures Valid() && c == old(Queue())[0] && Queue() == old(Queue())[1..] && dst[..] == old(dst[..])[i := c]
    {
      WindowPop(inbuf[..], in_r, in_w);
      hide Window;
      c := inbuf[in_r % INBUF];
      in_r := in_r + 1;
      dst[i] := c;
    }

    /** console_read into dst[from..] until it has a line or n bytes, or finds the buffer empty and must sleep. */
    method ReadAvailable(dst: array<char>, from: nat, n: nat) returns (i: nat)
      requires Valid() && from <= n <= dst.Length && dst != inbuf
      modifies this`in_r, dst
      ensures Valid() && from <= i <= n && i == from + Share(old(Queue()), n - from)
      ensures Moved(old(dst[..]), dst[..], old(Queue()), Queue(), from, i)
    {
      hide Window, Share, Moved, Queue;
      i := from;
      ShareNone(Queue());
      NoneMoved(dst[..], Queue(), from);
      while i < n && in_r != in_w
        invariant from <= i <= n && Valid() && Moved(old(dst[..]), dst[..], old(Queue()), Queue(), from, i)
        invariant i + Share(Queue(), n - i) == from + Share(old(Queue()), n - from)
        decreases n - i
      {
        ShareStep(Queue(), n - i);
        OneMoved(old(dst[..]), dst[..], old(Queue()), Queue(), from, i);
        var c := Take(dst, i);
        i := i + 1;
        if c == '\n' {
          return;
        }
      }
      ShareNone(Queue());
    }
  }

  /** The bytes dst[from..i] followed by those still unread are the ones there were; the rest of dst is as it was. */
  ghost predicate Moved(was: seq<char>, dst: seq<char>, q: seq<char>, left: seq<char>, from: nat, i: nat) {
    && from <= i <= |dst| == |was| && dst[from..i] + left == q && dst[..from] == was[..from] && dst[i..] == was[i..]
  }

  lemma NoneMoved(dst: seq<char>, q: seq<char>, from: nat)
    requires from <= |dst|
    ensures Moved(dst, dst, q, q, from, from)
  {
  }

  lemma OneMoved(was: seq<char>, dst: seq<char>, q: seq<char>, left: seq<char>, from: nat, i: nat)
    requires Moved(was, dst, q, left, from, i) && left != [] && i < |dst|
    ensures Moved(was, dst[i := left[0]], q, left[1..], from, i + 1)
  {
    var next := dst[i := left[0]];
    assert next[from..i + 1] == dst[from..i] + [left[0]];
    assert [left[0]] + left[1..] == left;
    assert next[..from] == dst[..from] && next[i + 1..] == dst[i..][1..] == was[i..][1..] == was[i + 1..];
  }

  lemma ShareNone(q: seq<char>)
    ensures Share(q, 0) == 0 && forall n: nat :: Share([], n) == 0
  {
  }
}
