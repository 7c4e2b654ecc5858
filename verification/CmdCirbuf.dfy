/**
  The circular buffer of the line editor refines a bounded double-ended queue.
*/
module CmdCirbuf {

  /** Position `x` of a ring of size `m`, for `x` less than twice around. */
  function Wrap(x: nat, m: nat): nat { if x < m then x else x - m }

  lemma ModWrap(x: nat, m: nat)
    requires x < 2 * m
    ensures x % m == Wrap(x, m) < m
  {
    if x >= m {
      var q := x / m;
      assert x == q * m + x % m;
      if q >= 2 { Grow(2, q, m); }
    }
  }

  lemma Grow(a: nat, b: nat, m: nat)
    requires a <= b
    ensures a * m <= b * m
  {
  }

  /** The element `i` places after position `start`. */
  ghost function Cell(b: seq<int>, start: nat, i: nat, m: nat): int
    requires start <= m <= |b| && i < m
  {
    b[Wrap(start + i, m)]
  }

  /** The elements of a ring from `start`. */
  ghost function Ring(b: seq<int>, start: nat, len: nat, m: nat): (r: seq<int>)
    requires start < m <= |b| && len <= m
    ensures |r| == len && forall i: nat :: i < len ==> r[i] == Cell(b, start, i, m)
  {
    seq(len, (i: nat) requires i < len => Cell(b, start, i, m))
  }

  ghost predicate Sane(start: nat, end: nat, len: nat, m: nat) {
    start < m && len <= m && end == Wrap(start + (if len == 0 then 0 else len - 1), m)
  }

  // ------------------------------------------------------------------- laws of the ring

  lemma PutTail(b: seq<int>, start: nat, len: nat, m: nat, c: int)
    requires start < m <= |b| && len < m
    ensures Ring(b[Wrap(start + len, m) := c], start, len + 1, m) == Ring(b, start, len, m) + [c]
  {
    var b' := b[Wrap(start + len, m) := c];
    forall i: nat | i < len ensures Cell(b', start, i, m) == Cell(b, start, i, m) { }
  }

  lemma PutHead(b: seq<int>, start: nat, len: nat, m: nat, c: int)
    requires start < m <= |b| && len < m
    ensures var s := Wrap(start + m - 1, m); Ring(b[s := c], s, len + 1, m) == [c] + Ring(b, start, len, m)
  {
    var s := Wrap(start + m - 1, m);
    var b' := b[s := c];
    forall i: nat | i < len ensures Cell(b', s, i + 1, m) == Cell(b, start, i, m) { }
    assert Cell(b', s, 0, m) == c;
    var r := Ring(b', s, len + 1, m);
    forall i: nat | i < len + 1 ensures r[i] == ([c] + Ring(b, start, len, m))[i] {
      if i > 0 { assert Cell(b', s, (i - 1) + 1, m) == Cell(b, start, i - 1, m); }
    }
  }

  lemma DropHead(b: seq<int>, start: nat, len: nat, m: nat, k: nat)
    requires start < m <= |b| && k <= len <= m && k < m
    ensures Ring(b, Wrap(start + k, m), len - k, m) == Ring(b, start, len, m)[k..]
  {
    var s, r, q := Wrap(start + k, m), Ring(b, Wrap(start + k, m), len - k, m), Ring(b, start, len, m)[k..];
    forall i: nat | i < len - k ensures r[i] == q[i] {
      assert Cell(b, s, i, m) == Cell(b, start, k + i, m);
    }
  }

  lemma DropTail(b: seq<int>, start: nat, len: nat, m: nat, k: nat)
    requires start < m <= |b| && k <= len <= m
    ensures Ring(b, start, len - k, m) == Ring(b, start, len, m)[..len - k]
  {
  }

  /** `c` was written from position `base` on, around the end if need be. */
  ghost predicate Placed(b: seq<int>, b': seq<int>, base: nat, c: seq<int>, m: nat) {
    && base <= m <= |b| == |b'| && |c| <= m
    && (forall i: nat :: i < |c| ==> Cell(b', base, i, m) == c[i])
    && (forall x: nat :: x < m && (x < base || base + |c| <= x) && base + |c| <= x + m ==> b'[x] == b[x])
  }

  lemma AppendAll(b: seq<int>, b': seq<int>, start: nat, end: nat, len: nat, m: nat, c: seq<int>)
    requires Sane(start, end, len, m) && len + |c| <= m && |c| > 0
    requires Placed(b, b', end + (if len == 0 then 0 else 1), c, m)
    ensures Ring(b', start, len + |c|, m) == Ring(b, start, len, m) + c
  {
    var base := end + if len == 0 then 0 else 1;
    forall i: nat | i < len ensures Cell(b', start, i, m) == Cell(b, start, i, m) { }
    forall i: nat | i < |c| ensures Cell(b', start, len + i, m) == c[i] {
      assert Cell(b', base, i, m) == c[i];
    }
    var r := Ring(b', start, len + |c|, m);
    forall i: nat | i < len + |c| ensures r[i] == (Ring(b, start, len, m) + c)[i] {
      if i >= len { assert Cell(b', start, len + (i - len), m) == c[i - len]; }
    }
  }

  lemma PrependAll(b: seq<int>, b': seq<int>, start: nat, len: nat, m: nat, c: seq<int>, base: nat)
    requires start < m && len + |c| <= m && 0 < |c| && Placed(b, b', base, c, m)
    requires var s := start + if len == 0 then 1 else 0; base == if |c| <= s then s - |c| else s + m - |c|
    requires base < m
    ensures Ring(b', base, len + |c|, m) == c + Ring(b, start, len, m)
  {
    forall i: nat | i < len ensures Cell(b', base, |c| + i, m) == Cell(b, start, i, m) { }
    var r := Ring(b', base, len + |c|, m);
    forall i: nat | i < len + |c| ensures r[i] == (c + Ring(b, start, len, m))[i] {
      if i >= |c| { assert Cell(b', base, |c| + (i - |c|), m) == Cell(b, start, i - |c|, m); }
    }
  }

  /** The same elements, from another start. */
  ghost predicate Moved(b: seq<int>, b': seq<int>, start: nat, start': nat, len: nat, m: nat) {
    && start < m && start' < m <= |b| == |b'| && len <= m
    && forall i: nat :: i < len ==> Cell(b', start', i, m) == Cell(b, start, i, m)
  }

  lemma MovedSame(b: seq<int>, b': seq<int>, start: nat, start': nat, len: nat, m: nat)
    requires Moved(b, b', start, start', len, m)
    ensures Ring(b', start', len, m) == Ring(b, start, len, m)
  {
  }

  /** `memcpy` into the ring's storage. */
  method Copy(b: array<int>, at: nat, c: seq<int>)
    requires at + |c| <= b.Length
    modifies b
    ensures forall i :: 0 <= i < |c| ==> b[at + i] == c[i]
    ensures forall i :: 0 <= i < b.Length && (i < at || at + |c| <= i) ==> b[i] == old(b[i])
  {
    for k := 0 to |c|
      invariant forall i :: 0 <= i < k ==> b[at + i] == c[i]
      invariant forall i :: 0 <= i < b.Length && (i < at || at + k <= i) ==> b[i] == old(b[i])
    {
      b[at + k] := c[k];
    }
  }

  /** The copy of `c` to position `base`, in two parts if it reaches the end. */
  method CopyWrap(b: array<int>, base: nat, c: seq<int>, m: nat)
    requires base <= m <= b.Length && |c| <= m
    modifies b
    ensures Placed(old(b[..]), b[..], base, c, m)
  {
    var room := m - base;
    if |c| < room {
      Copy(b, base, c);
    } else {
      Copy(b, base, c[..room]);
      Copy(b, 0, c[room..]);
    }
    forall i: nat | i < |c| ensures Cell(b[..], base, i, m) == c[i] {
      if base + i >= m { assert c[room..][i - room] == c[i]; }
    }
  }

  class Cirbuf {
    const buf: array<int>
    const maxlen: nat
    var start: nat
    var end: nat
    var len: nat

    ghost predicate Valid()
      reads this
    {
      0 < maxlen <= buf.Length && Sane(start, end, len, maxlen)
    }

    /** The queue. */
    ghost function Contents(): (r: seq<int>)
      requires Valid()
      reads this, buf
      ensures |r| == len
    {
      Ring(buf[..], start, len, maxlen)
    }

    /** `cirbuf_init`. */
    constructor (buf: array<int>, start: nat, maxlen: nat)
      requires start < maxlen <= buf.Length
      ensures Valid() && this.buf == buf && this.maxlen == maxlen && Contents() == []
    {
      this.buf, this.maxlen := buf, maxlen;
      this.start, end, len := start, start, 0;
    }

    /** `cirbuf_add_tail`, for a buffer that is not full. */
    method AddTail(c: int)
      requires Valid() && len < maxlen
      modifies this, buf
      ensures Valid() && Contents() == old(Contents()) + [c]
    {
      PutTail(buf[..], start, len, maxlen, c);
      ghost var after := buf[..][Wrap(start + len, maxlen) := c];
      if len != 0 {
        ModWrap(end + 1, maxlen);
        end := (end + 1) % maxlen;
      }
      buf[end] := c;
      assert buf[..] == after;
      len := len + 1;
    }

    method AddTailSafe(c: int) returns (ok: bool)
      requires Valid()
      modifies this, buf
      ensures Valid() && (ok <==> old(|Contents()|) < maxlen)
      ensures Contents() == if ok then old(Contents()) + [c] else old(Contents())
    {
      ok := len != maxlen;
      if ok {
        AddTail(c);
      }
    }

    /** `cirbuf_add_head`, for a buffer that is not full. */
    method AddHead(c: int)
      requires Valid() && len < maxlen
      modifies this, buf
      ensures Valid() && Contents() == [c] + old(Contents())
    {
      if len == 0 {
        PutTail(buf[..], start, 0, maxlen, c);
        ghost var after := buf[..][start := c];
        buf[start] := c;
        assert buf[..] == after;
      } else {
        PutHead(buf[..], start, len, maxlen, c);
        ModWrap(start + maxlen - 1, maxlen);
        ghost var after := buf[..][Wrap(start + maxlen - 1, maxlen) := c];
        start := (start + maxlen - 1) % maxlen;
        buf[start] := c;
        assert buf[..] == after;
      }
      len := len + 1;
    }

    method AddHeadSafe(c: int) returns (ok: bool)
      requires Valid()
      modifies this, buf
      ensures Valid() && (ok <==> old(|Contents()|) < maxlen)
      ensures Contents() == if ok then [c] + old(Contents()) else old(Contents())
    {
      ok := len != maxlen;
      if ok {
        AddHead(c);
      }
    }

    /** `cirbuf_del_head`. */
    method DelHead()
      requires Valid() && len > 0
      modifies this
      ensures Valid() && Contents() == old(Contents())[1..]
    {
      if len > 1 {
        DropHead(buf[..], start, len, maxlen, 1);
      }
      len := len - 1;
      if len != 0 {
        ModWrap(start + 1, maxlen);
        start := (start + 1) % maxlen;
      }
    }

    /** `cirbuf_del_tail`. */
    method DelTail()
      requires Valid() && len > 0
      modifies this
      ensures Valid() && Contents() == old(Contents())[..|old(Contents())| - 1]
    {
      DropTail(buf[..], start, len, maxlen, 1);
      len := len - 1;
      if len != 0 {
        ModWrap(end + maxlen - 1, maxlen);
        end := (end + maxlen - 1) % maxlen;
      }
    }

    /** `cirbuf_del_buf_head`. */
    method DelBufHead(size: nat) returns (ok: bool)
      requires Valid()
      modifies this
      ensures Valid() && (ok <==> 0 < size <= old(|Contents()|))
      ensures Contents() == if ok then old(Contents())[size..] else old(Contents())
    {
      if size == 0 || size > len {
        return false;
      }
      if size < len {
        DropHead(buf[..], start, len, maxlen, size);
        ModWrap(start + size, maxlen);
        start := (start + size) % maxlen;
      } else {
        ModWrap(start + size - 1, maxlen);
        start := (start + size - 1) % maxlen;
      }
      len := len - size;
      return true;
    }

    /** `cirbuf_del_buf_tail`. */
    method DelBufTail(size: nat) returns (ok: bool)
      requires Valid()
      modifies this
      ensures Valid() && (ok <==> 0 < size <= old(|Contents()|))
      ensures Contents() == if ok then old(Contents())[..|old(Contents())| - size] else old(Contents())
    {
      if size == 0 || size > len {
        return false;
      }
      DropTail(buf[..], start, len, maxlen, size);
      if size == len {
        ModWrap(end + maxlen - size + 1, maxlen);
        end := (end + maxlen - size + 1) % maxlen;
      } else {
        ModWrap(end + maxlen - size, maxlen);
        end := (end + maxlen - size) % maxlen;
      }
      len := len - size;
      return true;
    }

    /** `cirbuf_add_buf_tail`. */
    method AddBufTail(c: seq<int>) returns (ok: bool)
      requires Valid()
      modifies this, buf
      ensures Valid() && (ok <==> 0 < |c| <= maxlen - old(|Contents()|))
      ensures Contents() == if ok then old(Contents()) + c else old(Contents())
    {
      var n := |c|;
      if n == 0 || n > maxlen - len {
        return false;
      }
      ghost var before := buf[..];
      var e := if len == 0 then 1 else 0;
      CopyWrap(buf, end + 1 - e, c, maxlen);
      AppendAll(before, buf[..], start, end, len, maxlen, c);
      ModWrap(end + n - e, maxlen);
      len := len + n;
      end := (end + n - e) % maxlen;
      return true;
    }

    /** `cirbuf_add_buf_head`. */
    method AddBufHead(c: seq<int>) returns (ok: bool)
      requires Valid()
      modifies this, buf
      ensures Valid() && (ok <==> 0 < |c| <= maxlen - old(|Contents()|))
      ensures Contents() == if ok then c + old(Contents()) else old(Contents())
    {
      hide Ring, Placed;
      var n := |c|;
      if n == 0 || n > maxlen - len {
        return false;
      }
      ghost var before := buf[..];
      var e := if len == 0 then 1 else 0;
      var base := if n <= start + e then start + e - n else start + e + maxlen - n;
      CopyWrap(buf, base, c, maxlen);
      PrependAll(before, buf[..], start, len, maxlen, c, base);
      ModWrap(start + maxlen - n + e, maxlen);
      len := len + n;
      start := (start + maxlen - n + e) % maxlen;
      return true;
    }

    /** `__cirbuf_shift_left`: one place to the left, also when the buffer is full. */
    method ShiftLeft()
      requires Valid()
      modifies this, buf
      ensures Valid() && Contents() == old(Contents()) && start == Wrap(old(start) + maxlen - 1, maxlen) &&
        len == old(len)
      ensures end == Wrap(old(end) + maxlen - 1, maxlen)
    {
      ghost var before := buf[..];
      RotateLeft(buf, start, len, maxlen);
      ModWrap(start + (maxlen - 1), maxlen);
      ModWrap(end + (maxlen - 1), maxlen);
      MovedSame(before, buf[..], start, Wrap(start + maxlen - 1, maxlen), len, maxlen);
      start := (start + (maxlen - 1)) % maxlen;
      end := (end + (maxlen - 1)) % maxlen;
    }

    /** `__cirbuf_shift_right`: one place to the right, also when the buffer is full. */
    method ShiftRight()
      requires Valid()
      modifies this, buf
      ensures Valid() && Contents() == old(Contents()) && start == Wrap(old(start) + 1, maxlen) && len == old(len)
    {
      ghost var before := buf[..];
      RotateRight(buf, start, end, len, maxlen);
      ModWrap(start + 1, maxlen);
      ModWrap(end + 1, maxlen);
      MovedSame(before, buf[..], start, Wrap(start + 1, maxlen), len, maxlen);
      start := (start + 1) % maxlen;
      end := (end + 1) % maxlen;
    }

    /** `cirbuf_align_left`. */
    method AlignLeft()
      requires Valid()
      modifies this, buf
      ensures Valid() && Contents() == old(Contents()) && start == 0 && buf[..len] == Contents()
    {
      if start < maxlen / 2 {
        while start != 0
          invariant Valid() && Contents() == old(Contents())
          decreases start
        {
          ShiftLeft();
        }
      } else {
        while start != 0
          invariant Valid() && Contents() == old(Contents())
          decreases if start == 0 then 0 else maxlen - start
        {
          ShiftRight();
        }
      }
      forall i: nat | i < len ensures buf[i] == Contents()[i] {
        assert Contents()[i] == Cell(buf[..], 0, i, maxlen);
      }
    }

    /**
      `cirbuf_align_right`: the queue is kept in any case. From the left half it stops when the data starts at the last
      place, so that the data ends there if and only if it started in the right half or has at most one element.
    */
    method AlignRight()
      requires Valid()
      modifies this, buf
      ensures Valid() && Contents() == old(Contents())
      ensures if old(start) >= maxlen / 2 then end == maxlen - 1 else start == maxlen - 1
      ensures end == maxlen - 1 <==> old(start) >= maxlen / 2 || len <= 1
    {
      if start >= maxlen / 2 {
        while end != maxlen - 1
          invariant Valid() && Contents() == old(Contents())
          decreases if end == maxlen - 1 then 0 else end + 1
        {
          ShiftLeft();
        }
      } else {
        while start != maxlen - 1
          invariant Valid() && Contents() == old(Contents())
          decreases maxlen - start
        {
          ShiftRight();
        }
      }
    }

    /** `cirbuf_get_buf_head`: the first elements. */
    method GetBufHead(size: nat) returns (c: seq<int>)
      requires Valid()
      ensures c == Contents()[..if size < len then size else len]
    {
      var n := if size < len then size else len;
      if start <= end || n <= maxlen - start {
        c := if n == 0 then [] else buf[start..start + n];
      } else {
        c := buf[start..maxlen] + buf[..n - (maxlen - start)];
      }
      forall i: nat | i < n ensures c[i] == Contents()[i] {
        assert Contents()[i] == Cell(buf[..], start, i, maxlen);
      }
    }

    /**
      `cirbuf_get_buf_tail` into the memory from `c` on, of which the caller has `size` places. In the right cases it
      writes the last elements and nothing else. In all others it writes up to place `len - 1`, behind the `n` places
      that it says it has written, and leaves out one of these.
    */
    method GetBufTail(c: array<int>, size: nat) returns (n: nat)
      requires Valid() && c != buf
      requires var n := if size < len then size else len; c.Length >= if TailFits(start, end, len, n) then n else len
      modifies c
      ensures n == (if size < len then size else len) <= c.Length
      ensures TailFits(start, end, len, n) ==> c[..n] == Contents()[len - n..] && c[n..] == old(c[n..])
      ensures !TailFits(start, end, len, n) ==>
        && n < len <= c.Length && c[len - 1] == Contents()[len - 1]
        && n - end - 1 < n && c[n - end - 1] == old(c[n - end - 1])
    {
      n := if size < len then size else len;
      if n == 0 {
        return;
      }
      var b := buf[..];
      TailInto(c, b, start, end, len, maxlen, n);
      assert buf[..] == b;
    }
  }

  /** The last `n` elements do not wrap, lie before the end of the storage, or are all there are. */
  predicate TailFits(start: nat, end: nat, len: nat, n: nat) { start <= end || n <= end + 1 || n == len }

  /** The copying part of `cirbuf_get_buf_tail`. */
  method TailInto(c: array<int>, b: seq<int>, start: nat, end: nat, len: nat, m: nat, n: nat)
    requires m <= |b| && Sane(start, end, len, m) && 0 < n <= len &&
      c.Length >= if TailFits(start, end, len, n) then n else len
    modifies c
    ensures TailFits(start, end, len, n) ==> c[..n] == Ring(b, start, len, m)[len - n..] && c[n..] == old(c[n..])
    ensures !TailFits(start, end, len, n) ==>
      && c[len - 1] == Ring(b, start, len, m)[len - 1]
      && n - end - 1 < n && c[n - end - 1] == old(c[n - end - 1])
  {
    if start <= end || n <= end + 1 {
      TailStraight(b, start, end, len, m, n);
      var piece := b[end - n + 1..end + 1];
      TwoCopies(c, n, [], piece);
      assert piece + [] == piece;
    } else {
      Wrapped(start, end, len, m);
      TailAll(b, start, end, len, m);
      TwoCopies(c, m - start, b[..end + 1], b[m - n + end + 1..m]);
    }
  }

  lemma Wrapped(start: nat, end: nat, len: nat, m: nat)
    requires Sane(start, end, len, m) && end < start
    ensures len == m - start + end + 1
  {
  }

  /** Two copies into `c`, the second to its front; they meet only if the first starts where the second ends. */
  method TwoCopies(c: array<int>, at: nat, a: seq<int>, b: seq<int>)
    requires at + |a| <= c.Length && |b| <= at
    modifies c
    ensures |b| == at ==> c[..at + |a|] == b + a
    ensures |b| < at ==> c[|b|] == old(c[|b|])
    ensures c[at..at + |a|] == a && c[at + |a|..] == old(c[at + |a|..])
  {
    Copy(c, at, a);
    Copy(c, 0, b);
  }

  lemma TailStraight(b: seq<int>, start: nat, end: nat, len: nat, m: nat, n: nat)
    requires m <= |b| && Sane(start, end, len, m) && 0 < n <= len && (start <= end || n <= end + 1)
    ensures n <= end + 1 && b[end - n + 1..end + 1] == Ring(b, start, len, m)[len - n..]
  {
    var r, q := Ring(b, start, len, m)[len - n..], b[end - n + 1..end + 1];
    forall i: nat | i < n ensures q[i] == r[i] {
      assert Cell(b, start, len - n + i, m) == b[end - n + 1 + i];
    }
  }

  lemma TailAll(b: seq<int>, start: nat, end: nat, len: nat, m: nat)
    requires m <= |b| && Sane(start, end, len, m) && end < start
    ensures b[start..m] + b[..end + 1] == Ring(b, start, len, m)[0..]
  {
    var r, q := Ring(b, start, len, m), b[start..m] + b[..end + 1];
    forall i: nat | i < len ensures q[i] == r[i] {
      assert Cell(b, start, i, m) == q[i];
    }
  }

  /** The first `i` cells hold their right neighbours. */
  ghost predicate ShiftedTo(before: seq<int>, b: seq<int>, start: nat, i: nat, m: nat) {
    && start < m <= |before| == |b|
    && (forall k: nat :: k < i && k + 1 < m ==> Cell(b, start, k, m) == Cell(before, start, k + 1, m))
    && (forall k: nat :: i <= k < m ==> Cell(b, start, k, m) == Cell(before, start, k, m))
  }

  lemma ShiftStep(before: seq<int>, b: seq<int>, b': seq<int>, start: nat, i: nat, m: nat)
    requires ShiftedTo(before, b, start, i, m) && i < m && b' == b[Wrap(start + i, m) := b[Wrap(start + i + 1, m)]]
    ensures ShiftedTo(before, b', start, i + 1, m)
  {
    forall k: nat | k < m && k != i ensures Cell(b', start, k, m) == Cell(b, start, k, m) { }
    assert i + 1 < m ==> Cell(b', start, i, m) == Cell(b, start, i + 1, m);
  }

  lemma ShiftedLeft(before: seq<int>, b: seq<int>, b': seq<int>, start: nat, len: nat, m: nat)
    requires ShiftedTo(before, b, start, len, m) && len <= m && b' == b[Wrap(start + m - 1, m) := before[start]]
    ensures Moved(before, b', start, Wrap(start + m - 1, m), len, m)
  {
    var s := Wrap(start + m - 1, m);
    forall i: nat | i < len ensures Cell(b', s, i, m) == Cell(before, start, i, m) {
      if i > 0 {
        assert Cell(b, start, i - 1, m) == Cell(before, start, (i - 1) + 1, m);
        assert Wrap(s + i, m) == Wrap(start + (i - 1), m);
      }
    }
  }

  method RotateLeft(b: array<int>, start: nat, len: nat, m: nat)
    requires start < m <= b.Length && len <= m
    modifies b
    ensures Moved(old(b[..]), b[..], start, Wrap(start + m - 1, m), len, m)
  {
    ghost var before := b[..];
    var tmp := b[start];
    for i := 0 to len
      invariant ShiftedTo(before, b[..], start, i, m)
    {
      ghost var was := b[..];
      ModWrap(start + i, m);
      ModWrap(start + i + 1, m);
      b[(start + i) % m] := b[(start + i + 1) % m];
      ShiftStep(before, was, b[..], start, i, m);
    }
    ghost var was := b[..];
    ModWrap(start - 1 + m, m);
    b[(start - 1 + m) % m] := tmp;
    ShiftedLeft(before, was, b[..], start, len, m);
  }

  /** The last `i` cells before and at `end` hold their left neighbours. */
  ghost predicate ShiftedFrom(before: seq<int>, b: seq<int>, end: nat, i: nat, m: nat) {
    && end < m <= |before| == |b|
    && (forall k: nat :: k < i && k + 1 < m ==> Back(b, end, k, m) == Back(before, end, k + 1, m))
    && (forall k: nat :: i <= k < m ==> Back(b, end, k, m) == Back(before, end, k, m))
  }

  /** The element `k` places before position `end`. */
  ghost function Back(b: seq<int>, end: nat, k: nat, m: nat): int
    requires end < m <= |b| && k < m
  {
    b[Wrap(end + m - k, m)]
  }

  lemma BackStep(before: seq<int>, b: seq<int>, b': seq<int>, end: nat, i: nat, m: nat)
    requires ShiftedFrom(before, b, end, i, m) && i < m && b' == b[Wrap(end + m - i, m) := b[Wrap(end + m - i - 1, m)]]
    ensures ShiftedFrom(before, b', end, i + 1, m)
  {
    forall k: nat | k < m && k != i ensures Back(b', end, k, m) == Back(b, end, k, m) { }
    assert i + 1 < m ==> Back(b', end, i, m) == Back(b, end, i + 1, m);
  }

  lemma ShiftedRight(before: seq<int>, b: seq<int>, b': seq<int>, start: nat, end: nat, len: nat, m: nat)
    requires ShiftedFrom(before, b, end, len, m) && Sane(start, end, len, m) && b' == b[Wrap(end + 1, m) := before[end]]
    ensures Moved(before, b', start, Wrap(start + 1, m), len, m)
  {
    var s := Wrap(start + 1, m);
    forall i: nat | i < len ensures Cell(b', s, i, m) == Cell(before, start, i, m) {
      if i < len - 1 {
        var k := len - 2 - i;
        assert Back(b, end, k, m) == Back(before, end, k + 1, m);
        assert Wrap(s + i, m) == Wrap(end + m - k, m) && Wrap(start + i, m) == Wrap(end + m - (k + 1), m);
      }
    }
  }

  method RotateRight(b: array<int>, start: nat, end: nat, len: nat, m: nat)
    requires m <= b.Length && Sane(start, end, len, m)
    modifies b
    ensures Moved(old(b[..]), b[..], start, Wrap(start + 1, m), len, m)
  {
    ghost var before := b[..];
    var tmp := b[end];
    for i := 0 to len
      invariant ShiftedFrom(before, b[..], end, i, m)
    {
      ghost var was := b[..];
      ModWrap(end + m - i, m);
      ModWrap(end + m - i - 1, m);
      b[(end + m - i) % m] := b[(end + m - i - 1) % m];
      BackStep(before, was, b[..], end, i, m);
    }
    ghost var was := b[..];
    ModWrap(end + 1, m);
    b[(end + 1) % m] := tmp;
    ShiftedRight(before, was, b[..], start, end, len, m);
  }
}
