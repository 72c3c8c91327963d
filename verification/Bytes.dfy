/** Bytes, fixed-width integers, their big-endian form, and the in-place byte swap
    the codec applies to typed numeric buffers on a little-endian host. */
module Bytes {

  newtype byte = x: int | 0 <= x < 256

  type bytes = seq<byte>

  const TWO_16: int := 0x1_0000
  const TWO_32: int := 0x1_0000_0000
  const TWO_64: int := 0x1_0000_0000_0000_0000

  type uint16 = x: int | 0 <= x < TWO_16
  type uint32 = x: int | 0 <= x < TWO_32
  type uint64 = x: int | 0 <= x < TWO_64
  type int32 = x: int | -0x8000_0000 <= x < 0x8000_0000
  type int64 = x: int | -0x8000_0000_0000_0000 <= x < 0x8000_0000_0000_0000

  /** The value of a 32-bit expression. */
  function Wrap(n: int): uint32 {
    n % TWO_32
  }

  function Min(a: nat, b: nat): nat {
    if a < b then a else b
  }

  function TwoTo(n: nat): (p: nat)
    ensures p >= 1
  {
    if n == 0 then 1 else 2 * TwoTo(n - 1)
  }

  /** The bytes of a text in the source: its characters' codes. */
  function Ascii(s: string): (r: bytes)
    requires forall i :: 0 <= i < |s| ==> s[i] as int < 256
    ensures |r| == |s| && forall i :: 0 <= i < |s| ==> r[i] as int == s[i] as int
  {
    seq(|s|, i requires 0 <= i < |s| => s[i] as int as byte)
  }

  // ----- big-endian output: each width is written as two halves -----

  function BigEndian16(v: uint16): (r: bytes)
    ensures |r| == 2
  {
    [(v / 256) as byte, (v % 256) as byte]
  }

  function BigEndian32(v: uint32): (r: bytes)
    ensures |r| == 4
  {
    BigEndian16(v / TWO_16) + BigEndian16(v % TWO_16)
  }

  function BigEndian64(v: uint64): (r: bytes)
    ensures |r| == 8
  {
    BigEndian32(v / TWO_32) + BigEndian32(v % TWO_32)
  }

  // ----- big-endian input, bytes taken left to right -----

  function Value16(s: bytes): uint16
    requires |s| == 2
  {
    s[0] as int * 256 + s[1] as int
  }

  function Value32(s: bytes): uint32
    requires |s| == 4
  {
    Value16(s[..2]) * TWO_16 + Value16(s[2..])
  }

  function Value64(s: bytes): uint64
    requires |s| == 8
  {
    Value32(s[..4]) * TWO_32 + Value32(s[4..])
  }

  lemma Multiples(a: int, b: int, high: int, low: int)
    ensures a * (b * high + low) == high * (a * b) + low * a
  {
    assert a * (b * high) == high * (a * b);
  }

  lemma RestIsSmall(a: nat, b: nat, low: nat, r: nat)
    requires low < b && r < a
    ensures low * a + r < a * b
  {
    assert (b - low) * a >= a by { MulAtLeast(b - low, a); }
  }

  /** Dividing twice: what is left of a number, and the parts of its remainder. */
  lemma DivTwice(v: nat, a: nat, b: nat)
    requires a > 0 && b > 0
    ensures a * b > 0 && v / a / b == v / (a * b) && v / a % b == v % (a * b) / a && v % (a * b) % a == v % a
  {
    var q, r := v / a, v % a;
    var high, low, ab := q / b, q % b, a * b;
    MulAtLeast(a, b);
    Multiples(a, b, high, low);
    RestIsSmall(a, b, low, r);
    DivModUnique(v, ab, high, low * a + r);
    DivModUnique(low * a + r, a, low, r);
  }

  /** The most significant byte comes first. */
  lemma BigEndian16Is(v: uint16)
    ensures BigEndian16(v) == [(v / 0x100) as byte, (v % 0x100) as byte]
  {}

  lemma BigEndian32Is(v: uint32)
    ensures BigEndian32(v) == [(v / 0x100_0000) as byte, (v / 0x1_0000 % 0x100) as byte,
                               (v / 0x100 % 0x100) as byte, (v % 0x100) as byte]
  {
    DivTwice(v, 0x1_0000, 0x100);
    DivTwice(v, 0x100, 0x100);
  }

  lemma BigEndian64Is(v: uint64)
    ensures BigEndian64(v) == [(v / 0x100_0000_0000_0000) as byte, (v / 0x1_0000_0000_0000 % 0x100) as byte,
                               (v / 0x100_0000_0000 % 0x100) as byte, (v / 0x1_0000_0000 % 0x100) as byte,
                               (v / 0x100_0000 % 0x100) as byte, (v / 0x1_0000 % 0x100) as byte,
                               (v / 0x100 % 0x100) as byte, (v % 0x100) as byte]
  {
    var high, low := v / TWO_32, v % TWO_32;
    BigEndian32Is(high);
    BigEndian32Is(low);
    DivTwice(v, TWO_32, 0x100_0000);
    DivTwice(v, TWO_32, 0x1_0000);
    DivTwice(v, TWO_32, 0x100);
    DivTwice(v, 0x100_0000, 0x100);
    DivTwice(v, 0x1_0000, 0x1_0000);
    DivTwice(v / 0x1_0000, 0x100, 0x100);
    DivTwice(v, 0x100, 0x100_0000);
    DivTwice(v / 0x100, 0x100, 0x1_0000);
  }

  lemma BigEndian32RoundTrip(v: uint32)
    ensures Value32(BigEndian32(v)) == v
  {
    var s := BigEndian32(v);
    assert s[..2] == BigEndian16(v / TWO_16) && s[2..] == BigEndian16(v % TWO_16);
  }

  lemma BigEndian64RoundTrip(v: uint64)
    ensures Value64(BigEndian64(v)) == v
  {
    var s := BigEndian64(v);
    assert s[..4] == BigEndian32(v / TWO_32) && s[4..] == BigEndian32(v % TWO_32);
    BigEndian32RoundTrip(v / TWO_32);
    BigEndian32RoundTrip(v % TWO_32);
  }

  // ----- two's complement -----

  /** The unsigned reading of a signed integer of the given modulus. */
  function Unsigned(n: int, modulus: int): (r: int)
    requires modulus > 0
    ensures 0 <= r < modulus
  {
    n % modulus
  }

  function Signed(u: int, modulus: int): int {
    if 2 * u < modulus then u else u - modulus
  }

  lemma SignedRoundTrip(n: int, modulus: int)
    requires modulus > 0 && modulus % 2 == 0 && -modulus <= 2 * n < modulus
    ensures Signed(Unsigned(n, modulus), modulus) == n
  {
    if n < 0 {
      assert n % modulus == n + modulus by { DivModUnique(n, modulus, -1, n + modulus); }
    } else {
      DivModUnique(n, modulus, 0, n);
    }
  }

  lemma DivModUnique(a: int, d: int, q: int, r: int)
    requires d > 0 && 0 <= r < d && a == q * d + r
    ensures a / d == q && a % d == r
  {
    var q', r' := a / d, a % d;
    assert a == q' * d + r';
    assert (q - q') * d == r' - r;
    if q > q' {
      assert (q - q') * d >= d by { MulAtLeast(q - q', d); }
    } else if q < q' {
      assert (q' - q) * d >= d by { MulAtLeast(q' - q, d); }
    }
  }

  lemma MulAtLeast(k: int, d: int)
    requires k >= 1 && d > 0
    ensures k * d >= d
  {
    assert (k - 1) * d >= 0;
  }

  // ----- C strings -----

  /** The part of a byte string before its first NUL, which is what `strlen` sees. */
  function CStr(s: bytes): (r: bytes)
    ensures r <= s && 0 !in r
    ensures r == s || s[|r|] == 0
    ensures 0 !in s ==> r == s
  {
    if s == [] || s[0] == 0 then [] else [s[0]] + CStr(s[1..])
  }

  // ----- element-wise byte swap -----

  function Reverse(s: bytes): (r: bytes)
    ensures |r| == |s|
    ensures forall i :: 0 <= i < |s| ==> r[i] == s[|s| - 1 - i]
  {
    seq(|s|, i requires 0 <= i < |s| => s[|s| - 1 - i])
  }

  /** Every whole element of `sz` bytes reversed, in order; a trailing part element is left alone. */
  function SwapElements(s: bytes, sz: nat): (r: bytes)
    requires sz > 0
    ensures |r| == |s|
  {
    if |s| < sz then s else Reverse(s[..sz]) + SwapElements(s[sz..], sz)
  }

  lemma {:induction false} SwapAppend(a: bytes, b: bytes, sz: nat, n: nat)
    requires sz > 0 && |a| == sz * n
    ensures SwapElements(a + b, sz) == SwapElements(a, sz) + SwapElements(b, sz)
    decreases n
  {
    if n == 0 {
      assert a + b == b;
    } else {
      assert |a| == sz * (n - 1) + sz;
      SwapAppend(a[sz..], b, sz, n - 1);
      assert (a + b)[..sz] == a[..sz];
      assert (a + b)[sz..] == a[sz..] + b;
    }
  }

  /** Swapping twice restores the buffer: what the writer swaps, the reader swaps back. */
  lemma {:induction false} SwapInvolution(s: bytes, sz: nat)
    requires sz > 0
    ensures SwapElements(SwapElements(s, sz), sz) == s
    decreases |s|
  {
    if |s| >= sz {
      var head, tail := Reverse(s[..sz]), SwapElements(s[sz..], sz);
      assert (head + tail)[..sz] == head && (head + tail)[sz..] == tail;
      SwapInvolution(s[sz..], sz);
      assert Reverse(Reverse(s[..sz])) == s[..sz];
    }
  }

  /** `at` is where an element starts. */
  predicate Boundary(at: nat, sz: nat)
    requires sz > 0
    decreases at
  {
    at == 0 || (at >= sz && Boundary(at - sz, sz))
  }

  /** Byte `k` of any element of a swapped buffer comes from the mirrored place in that element. */
  lemma {:induction false} SwapAt(s: bytes, sz: nat, at: nat, k: nat)
    requires k < sz && Boundary(at, sz) && at + sz <= |s|
    ensures SwapElements(s, sz)[at + k] == s[at + (sz - 1 - k)]
    decreases at
  {
    if at > 0 {
      SwapAt(s[sz..], sz, at - sz, k);
    }
  }

  predicate ElementSize(sz: nat) {
    sz == 1 || sz == 2 || sz == 4 || sz == 8
  }

  // The value a little-endian host reads from an element in memory.

  function Host16(s: bytes): uint16
    requires |s| == 2
  {
    s[0] as int + 256 * s[1] as int
  }

  function Host32(s: bytes): uint32
    requires |s| == 4
  {
    Host16(s[..2]) + TWO_16 * Host16(s[2..])
  }

  function Host64(s: bytes): uint64
    requires |s| == 8
  {
    Host32(s[..4]) + TWO_32 * Host32(s[4..])
  }

  lemma HostBigEndian16(s: bytes)
    requires |s| == 2
    ensures BigEndian16(Host16(s)) == Reverse(s)
  {
    DivModUnique(Host16(s), 256, s[1] as int, s[0] as int);
  }

  lemma HostBigEndian32(s: bytes)
    requires |s| == 4
    ensures BigEndian32(Host32(s)) == Reverse(s)
  {
    DivModUnique(Host32(s), TWO_16, Host16(s[2..]), Host16(s[..2]));
    HostBigEndian16(s[..2]);
    HostBigEndian16(s[2..]);
  }

  lemma HostBigEndian64(s: bytes)
    requires |s| == 8
    ensures BigEndian64(Host64(s)) == Reverse(s)
  {
    DivModUnique(Host64(s), TWO_32, Host32(s[4..]), Host32(s[..4]));
    HostBigEndian32(s[..4]);
    HostBigEndian32(s[4..]);
  }

  /** Replaces one element, starting at `at`, by the big-endian bytes of its host value. */
  method SwapOne(buf: array<byte>, at: nat, sz: nat)
    requires sz == 2 || sz == 4 || sz == 8
    requires at + sz <= buf.Length
    modifies buf
    ensures buf[..] == old(buf[..at]) + Reverse(old(buf[at..at + sz])) + old(buf[at + sz..])
  {
    hide Host16, Host32, Host64, BigEndian16, BigEndian32, BigEndian64;
    var element := buf[at..at + sz];
    var swapped;
    if sz == 2 {
      HostBigEndian16(element);
      swapped := BigEndian16(Host16(element));
    } else if sz == 4 {
      HostBigEndian32(element);
      swapped := BigEndian32(Host32(element));
    } else {
      HostBigEndian64(element);
      swapped := BigEndian64(Host64(element));
    }
    assert swapped == Reverse(element);
    ghost var was := buf[..];
    for k := 0 to sz
      invariant forall i :: 0 <= i < buf.Length && !(at <= i < at + k) ==> buf[i] == was[i]
      invariant forall i :: 0 <= i < k ==> buf[at + i] == swapped[i]
    {
      buf[at + k] := swapped[k];
    }
    assert buf[..] == was[..at] + swapped + was[at + sz..];
  }

  /** Swaps the first `n` elements of `buf` in place; sizes 0 and 1 need no swap. */
  method BufEndianSwap(buf: array<byte>, sz: nat, n: nat)
    requires sz == 0 || ElementSize(sz)
    requires sz * n <= buf.Length
    modifies buf
    ensures buf[..] == (if sz == 0 then old(buf[..])
                        else SwapElements(old(buf[..sz * n]), sz) + old(buf[sz * n..]))
  {
    if sz <= 1 {
      if sz == 1 {
        SwapSize1(buf[..n]);
        assert buf[..] == buf[..n] + buf[n..];
      }
      return;
    }
    SwapLoop(buf, sz, n, sz * n);
  }

  method SwapLoop(buf: array<byte>, sz: nat, n: nat, end: nat)
    requires sz == 2 || sz == 4 || sz == 8
    requires sz * n == end <= buf.Length
    modifies buf
    ensures buf[..] == SwapElements(old(buf[..end]), sz) + old(buf[end..])
  {
    ghost var was := buf[..];
    var at := 0;
    for i := 0 to n
      invariant at == sz * i <= end
      invariant buf[..] == SwapElements(was[..at], sz) + was[at..]
    {
      NextMultiple(sz, i, n);
      ghost var now := buf[..];
      SwapOne(buf, at, sz);
      SwapNext(was, now, sz, i, at);
      at := at + sz;
    }
  }

  lemma NextMultiple(sz: nat, i: nat, n: nat)
    requires i < n
    ensures sz * (i + 1) == sz * i + sz <= sz * n
  {
    assert sz * n == sz * (i + 1) + sz * (n - i - 1);
  }

  lemma {:induction false} SwapSize1(s: bytes)
    ensures SwapElements(s, 1) == s
    decreases |s|
  {
    if |s| > 0 {
      SwapSize1(s[1..]);
      assert Reverse(s[..1]) == s[..1];
    }
  }

  lemma SwapNext(was: bytes, now: bytes, sz: nat, i: nat, at: nat)
    requires sz > 0 && at == sz * i && at + sz <= |was|
    requires now == SwapElements(was[..at], sz) + was[at..]
    ensures now[..at] + Reverse(now[at..at + sz]) + now[at + sz..]
         == SwapElements(was[..at + sz], sz) + was[at + sz..]
  {
    var next := was[at..at + sz];
    SwapAppend(was[..at], next, sz, i);
    assert was[..at] + next == was[..at + sz];
    assert next[..sz] == next && next[sz..] == [];
    assert now[at..at + sz] == next;
    assert now[at + sz..] == was[at + sz..];
  }
}
