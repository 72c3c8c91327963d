/** AES in counter mode as the library drives it: data is processed in 1024-byte chunks by one
    running counter, which may span packets or blob writes. The block cipher itself is arbitrary. */
module Ctr {
  import opened Bytes

  const BLOCK_SIZE: nat := 16
  const CHUNK_SIZE: nat := 1024
  const COUNTERS: nat := 0x1_0000_0000_0000_0000_0000_0000_0000_0000

  /** The forward cipher under a fixed key: a 16-byte block for each counter block. */
  type BlockCipher = e: nat -> bytes | forall c: nat :: |e(c)| == BLOCK_SIZE
    witness (c => seq(BLOCK_SIZE, i => 0))

  /** The 16-byte counter block, read as a number. */
  type Counter = c: nat | c < COUNTERS

  // ----- exclusive or of bytes -----

  function XorBits(n: nat, a: nat, b: nat): nat {
    if n == 0 then 0
    else (if a % 2 == b % 2 then 0 else 1) + 2 * XorBits(n - 1, a / 2, b / 2)
  }

  lemma {:induction false} XorBitsFacts(n: nat, a: nat, b: nat)
    requires a < TwoTo(n) && b < TwoTo(n)
    ensures XorBits(n, a, b) < TwoTo(n)
    ensures XorBits(n, XorBits(n, a, b), b) == a
    decreases n
  {
    if n > 0 {
      XorBitsFacts(n - 1, a / 2, b / 2);
      var r, bit := XorBits(n - 1, a / 2, b / 2), if a % 2 == b % 2 then 0 else 1;
      var x := bit + 2 * r;
      assert XorBits(n, a, b) == x && x % 2 == bit && x / 2 == r;
    }
  }

  lemma ByteWidth()
    ensures TwoTo(8) == 256
  {
    assert TwoTo(4) == 16;
    assert TwoTo(5) == 32 && TwoTo(6) == 64;
  }

  function Xor(a: byte, b: byte): byte {
    ByteWidth();
    XorBitsFacts(8, a as nat, b as nat);
    XorBits(8, a as nat, b as nat) as byte
  }

  /** Bit by bit: one exactly where the two bits differ. */
  lemma XorIs(a: byte, b: byte, k: nat)
    requires k < 8
    ensures (Xor(a, b) as nat / TwoTo(k)) % 2 == 1 <==> (a as nat / TwoTo(k)) % 2 != (b as nat / TwoTo(k)) % 2
  {
    ByteWidth();
    XorBitsFacts(8, a as nat, b as nat);
    XorBitsAt(8, a as nat, b as nat, k);
  }

  lemma {:induction false} XorBitsAt(n: nat, a: nat, b: nat, k: nat)
    requires k < n
    ensures (XorBits(n, a, b) / TwoTo(k)) % 2 == 1 <==> (a / TwoTo(k)) % 2 != (b / TwoTo(k)) % 2
    decreases n
  {
    var r, bit := XorBits(n - 1, a / 2, b / 2), if a % 2 == b % 2 then 0 else 1;
    var x := bit + 2 * r;
    assert XorBits(n, a, b) == x && x % 2 == bit && x / 2 == r;
    if k > 0 {
      XorBitsAt(n - 1, a / 2, b / 2, k - 1);
      hide XorBits;
      Halve(a, k);
      Halve(b, k);
      Halve(x, k);
    }
  }

  lemma Halve(a: nat, k: nat)
    requires k > 0
    ensures a / TwoTo(k) == a / 2 / TwoTo(k - 1)
  {
    DivTwice(a, 2, TwoTo(k - 1));
  }

  /** A zero key byte leaves the data. */
  lemma XorZero(a: byte)
    ensures Xor(a, 0) == a
  {
    ByteWidth();
    XorBitsZero(8, a as nat);
  }

  lemma {:induction false} XorBitsZero(n: nat, a: nat)
    requires a < TwoTo(n)
    ensures XorBits(n, a, 0) == a
    decreases n
  {
    if n > 0 { XorBitsZero(n - 1, a / 2); }
  }

  lemma XorInvolution(a: byte, b: byte)
    ensures Xor(Xor(a, b), b) == a
  {
    ByteWidth();
    XorBitsFacts(8, a as nat, b as nat);
  }

  lemma XorCancel(a: byte, b: byte, c: byte)
    requires Xor(a, b) == Xor(a, c)
    ensures b == c
  {
    ByteWidth();
    XorSymmetric(8, a as nat, b as nat);
    XorSymmetric(8, a as nat, c as nat);
    XorInvolution(b, a);
    XorInvolution(c, a);
  }

  lemma {:induction false} XorSymmetric(n: nat, a: nat, b: nat)
    ensures XorBits(n, a, b) == XorBits(n, b, a)
    decreases n
  {
    if n > 0 { XorSymmetric(n - 1, a / 2, b / 2); }
  }

  // ----- counter mode, section 6.5 of NIST SP 800-38A -----

  /** The counter block `blocks` steps after `ctr`. */
  function Advance(ctr: Counter, blocks: nat): Counter {
    (ctr + blocks) % COUNTERS
  }

  /** Byte `i` of the key stream that starts at counter `ctr`. */
  function KeyStream(e: BlockCipher, ctr: Counter, i: nat): byte {
    e(Advance(ctr, i / BLOCK_SIZE))[i % BLOCK_SIZE]
  }

  /** One-shot counter mode: encryption and decryption alike. */
  function Crypt(e: BlockCipher, ctr: Counter, data: bytes): (r: bytes)
    ensures |r| == |data|
  {
    seq(|data|, i requires 0 <= i < |data| => Xor(data[i], KeyStream(e, ctr, i)))
  }

  /** Byte `i` is combined with byte `i % 16` of the block for the counter `i / 16` steps on. */
  lemma CryptIs(e: BlockCipher, ctr: Counter, data: bytes, i: nat)
    requires i < |data|
    ensures Crypt(e, ctr, data)[i]
            == Xor(data[i], e((ctr + i / 16) % 0x1_0000_0000_0000_0000_0000_0000_0000_0000)[i % 16])
  {}

  /** Under an all-zero key stream nothing is hidden. */
  lemma NoKeyNoSecret(e: BlockCipher, ctr: Counter, data: bytes)
    requires forall c: nat, i :: 0 <= i < 16 ==> e(c)[i] == 0
    ensures Crypt(e, ctr, data) == data
  {
    forall i | 0 <= i < |data| ensures Crypt(e, ctr, data)[i] == data[i] {
      CryptIs(e, ctr, data, i);
      XorZero(data[i]);
    }
  }

  /** Counter blocks consumed by `n` bytes: a final partial block counts in full. */
  function Blocks(n: nat): nat {
    (n + BLOCK_SIZE - 1) / BLOCK_SIZE
  }

  lemma CryptInvolution(e: BlockCipher, ctr: Counter, data: bytes)
    ensures Crypt(e, ctr, Crypt(e, ctr, data)) == data
  {
    forall i | 0 <= i < |data| ensures Crypt(e, ctr, Crypt(e, ctr, data))[i] == data[i] {
      XorInvolution(data[i], KeyStream(e, ctr, i));
    }
  }

  lemma AdvanceAdvance(ctr: Counter, a: nat, b: nat)
    ensures Advance(Advance(ctr, a), b) == Advance(ctr, a + b)
  {
    var q := (ctr + a) / COUNTERS;
    assert ctr + a == q * COUNTERS + Advance(ctr, a);
    var r := (Advance(ctr, a) + b) / COUNTERS;
    DivModUnique(ctr + a + b, COUNTERS, q + r, Advance(Advance(ctr, a), b));
  }

  lemma KeyStreamShift(e: BlockCipher, ctr: Counter, blocks: nat, i: nat)
    ensures KeyStream(e, Advance(ctr, blocks), i) == KeyStream(e, ctr, BLOCK_SIZE * blocks + i)
  {
    AdvanceAdvance(ctr, blocks, i / BLOCK_SIZE);
    DivModUnique(BLOCK_SIZE * blocks + i, BLOCK_SIZE, blocks + i / BLOCK_SIZE, i % BLOCK_SIZE);
  }

  lemma BlocksOf(q: nat, n: nat)
    ensures Blocks(BLOCK_SIZE * q + n) == q + Blocks(n)
  {
    DivModUnique(BLOCK_SIZE * q + n + BLOCK_SIZE - 1, BLOCK_SIZE, q + Blocks(n), (n + BLOCK_SIZE - 1) % BLOCK_SIZE);
  }

  /** Splitting at a block boundary and carrying the counter on changes nothing. */
  lemma CryptSplit(e: BlockCipher, ctr: Counter, a: bytes, b: bytes)
    requires |a| % BLOCK_SIZE == 0
    ensures Crypt(e, ctr, a + b) == Crypt(e, ctr, a) + Crypt(e, Advance(ctr, Blocks(|a|)), b)
  {
    hide Xor, KeyStream, Advance;
    var blocks := |a| / BLOCK_SIZE;
    BlocksOf(blocks, 0);
    DivModUnique(BLOCK_SIZE - 1, BLOCK_SIZE, 0, BLOCK_SIZE - 1);
    forall i | 0 <= i < |b|
      ensures Crypt(e, ctr, a + b)[|a| + i] == Crypt(e, Advance(ctr, blocks), b)[i]
    {
      KeyStreamShift(e, ctr, blocks, i);
    }
    assert Crypt(e, ctr, a + b)[..|a|] == Crypt(e, ctr, a);
    assert Crypt(e, ctr, a + b)[|a|..] == Crypt(e, Advance(ctr, blocks), b);
  }

  /** Only block boundaries are safe: at any other split some cipher tells the two apart. */
  lemma CryptSplitIff(ctr: Counter, a: bytes, b: bytes)
    requires |a| + |b| < TWO_32
    ensures (forall e: BlockCipher ::
              Crypt(e, ctr, a + b) == Crypt(e, ctr, a) + Crypt(e, Advance(ctr, Blocks(|a|)), b))
       <==> |a| % BLOCK_SIZE == 0 || b == []
  {
    if |a| % BLOCK_SIZE == 0 {
      forall e: BlockCipher
        ensures Crypt(e, ctr, a + b) == Crypt(e, ctr, a) + Crypt(e, Advance(ctr, Blocks(|a|)), b)
      {
        CryptSplit(e, ctr, a, b);
      }
    } else if b == [] {
      assert a + b == a;
    } else {
      var here := Advance(ctr, |a| / BLOCK_SIZE);
      var e: BlockCipher := c => seq(BLOCK_SIZE, i => if c == here then 1 else 0);
      NextCounterDiffers(ctr, |a|);
      var whole, parts := Crypt(e, ctr, a + b), Crypt(e, ctr, a) + Crypt(e, Advance(ctr, Blocks(|a|)), b);
      assert whole[|a|] == Xor(b[0], 1);
      assert parts[|a|] == Xor(b[0], 0);
      if whole[|a|] == parts[|a|] { XorCancel(b[0], 1, 0); }
    }
  }

  /** Reading a piece of a stream with whatever the running counter is gives the plain text back, for
      every cipher, only from a block boundary with the counter of just that block. */
  lemma PartialReadIff(salt: Counter, ctr: Counter, data: bytes, offset: nat, size: nat)
    requires offset + size <= |data|
    ensures (forall e: BlockCipher :: ReadsBack(e, salt, ctr, data, offset, size))
       <==> size == 0 || (offset % BLOCK_SIZE == 0 && ctr == Advance(salt, offset / BLOCK_SIZE))
  {
    if size == 0 {
      forall e: BlockCipher ensures ReadsBack(e, salt, ctr, data, offset, size) {}
    } else if offset % BLOCK_SIZE == 0 && ctr == Advance(salt, offset / BLOCK_SIZE) {
      forall e: BlockCipher ensures ReadsBack(e, salt, ctr, data, offset, size) {
        AlignedRead(e, salt, data, offset, size);
      }
    } else {
      var e := MisreadingCipher(salt, ctr, offset);
      Misread(e, salt, ctr, data, offset, size);
    }
  }

  /** What a read decrypts is what was encrypted there. */
  ghost predicate ReadsBack(e: BlockCipher, salt: Counter, ctr: Counter, data: bytes, offset: nat, size: nat)
    requires offset + size <= |data|
  {
    Crypt(e, ctr, Crypt(e, salt, data)[offset..offset + size]) == data[offset..offset + size]
  }

  lemma AlignedRead(e: BlockCipher, salt: Counter, data: bytes, offset: nat, size: nat)
    requires offset + size <= |data| && offset % BLOCK_SIZE == 0
    ensures ReadsBack(e, salt, Advance(salt, offset / BLOCK_SIZE), data, offset, size)
  {
    hide Xor, KeyStream, Advance;
    var here := Advance(salt, offset / BLOCK_SIZE);
    var secret := Crypt(e, salt, data)[offset..offset + size];
    forall i | 0 <= i < size ensures secret[i] == Crypt(e, here, data[offset..offset + size])[i] {
      KeyStreamShift(e, salt, offset / BLOCK_SIZE, i);
    }
    assert secret == Crypt(e, here, data[offset..offset + size]);
    CryptInvolution(e, here, data[offset..offset + size]);
  }

  /** A cipher whose key stream differs where the read starts. */
  lemma MisreadingCipher(salt: Counter, ctr: Counter, offset: nat) returns (e: BlockCipher)
    requires offset % BLOCK_SIZE != 0 || ctr != Advance(salt, offset / BLOCK_SIZE)
    ensures KeyStream(e, ctr, 0) == 1 && KeyStream(e, salt, offset) == 0
  {
    e := c => seq(BLOCK_SIZE, i => if c == ctr && i == 0 then 1 else 0);
    assert Advance(ctr, 0) == ctr;
  }

  lemma Misread(e: BlockCipher, salt: Counter, ctr: Counter, data: bytes, offset: nat, size: nat)
    requires 0 < size && offset + size <= |data|
    requires KeyStream(e, ctr, 0) == 1 && KeyStream(e, salt, offset) == 0
    ensures !ReadsBack(e, salt, ctr, data, offset, size)
  {
    hide Xor, KeyStream;
    var x := Xor(data[offset], 0);
    var back := Crypt(e, ctr, Crypt(e, salt, data)[offset..offset + size]);
    assert back[0] == Xor(x, 1);
    XorInvolution(data[offset], 0);
    if back[0] == data[offset..offset + size][0] { XorCancel(x, 1, 0); }
  }

  lemma NextCounterDiffers(ctr: Counter, n: nat)
    requires n < TWO_32 && n % BLOCK_SIZE != 0
    ensures Advance(Advance(ctr, Blocks(n)), 0) != Advance(ctr, n / BLOCK_SIZE)
  {
    var k := n / BLOCK_SIZE;
    assert Blocks(n) == k + 1;
    AdvanceAdvance(ctr, k + 1, 0);
  }

  // ----- counters of the resources of one message -----

  /** The salt of a resource, read as a counter: the first eight bytes of the message salt, the
      resource id as it lies in memory, and four zero bytes for the running count. */
  function ResourceCounter(message: uint64, resourceId: uint32): Counter {
    message * TWO_64 + Value32(Reverse(BigEndian32(resourceId))) * TWO_32
  }

  /** The sixteen bytes of the counter: the message's eight, the id with its lowest byte first, zeros. */
  lemma ResourceCounterIs(message: uint64, resourceId: uint32)
    ensures var c := ResourceCounter(message, resourceId);
            && BigEndian64(c / 0x1_0000_0000_0000_0000) == BigEndian64(message)
            && BigEndian64(c % 0x1_0000_0000_0000_0000)
               == [(resourceId % 0x100) as byte, (resourceId / 0x100 % 0x100) as byte,
                   (resourceId / 0x1_0000 % 0x100) as byte, (resourceId / 0x100_0000) as byte, 0, 0, 0, 0]
  {
    hide BigEndian64, BigEndian32, Value32, Reverse;
    var id := Reverse(BigEndian32(resourceId));
    ReversedId(resourceId);
    var x := Value32(id);
    DivModUnique(message * TWO_64 + x * TWO_32, TWO_64, message, x * TWO_32);
    LowHalf(id);
  }

  lemma ReversedId(v: uint32)
    ensures Reverse(BigEndian32(v)) == [(v % 0x100) as byte, (v / 0x100 % 0x100) as byte,
                                        (v / 0x1_0000 % 0x100) as byte, (v / 0x100_0000) as byte]
  {
    hide BigEndian32;
    BigEndian32Is(v);
    var s := BigEndian32(v);
    assert s == [s[0]] + ([s[1]] + ([s[2]] + [s[3]]));
  }

  lemma LowHalf(s: bytes)
    requires |s| == 4
    ensures BigEndian64(Value32(s) * TWO_32) == s + [0, 0, 0, 0]
  {
    var x := Value32(s);
    assert x * TWO_32 / TWO_32 == x && x * TWO_32 % TWO_32 == 0;
    BigEndian32Is(0);
    Value32RoundTrip(s);
  }

  lemma Value32RoundTrip(s: bytes)
    requires |s| == 4
    ensures BigEndian32(Value32(s)) == s
  {
    BigEndian32RoundTrip(Value32(s));
    Value32Injective(BigEndian32(Value32(s)), s);
  }

  /** Streams of different resources under one message key never use the same counter block,
      whatever their 32-bit lengths. */
  lemma ResourceCountersDisjoint(message: uint64, a: uint32, b: uint32, i: nat, j: nat)
    requires a != b && i < Blocks(TWO_32 - 1) && j < Blocks(TWO_32 - 1)
    ensures Advance(ResourceCounter(message, a), i) != Advance(ResourceCounter(message, b), j)
  {
    hide Value32, Reverse, BigEndian32;
    var x, y := Value32(Reverse(BigEndian32(a))), Value32(Reverse(BigEndian32(b)));
    if x == y { MemoryOrderInjective(a, b); }
    WithinRange(message, x, i);
    WithinRange(message, y, j);
  }

  lemma WithinRange(message: uint64, x: uint32, i: nat)
    requires i < TWO_32
    ensures Advance(message * TWO_64 + x * TWO_32, i) == message * TWO_64 + x * TWO_32 + i
  {
    DivModUnique(message * TWO_64 + x * TWO_32 + i, COUNTERS, 0, message * TWO_64 + x * TWO_32 + i);
  }

  lemma MemoryOrderInjective(a: uint32, b: uint32)
    requires Value32(Reverse(BigEndian32(a))) == Value32(Reverse(BigEndian32(b)))
    ensures a == b
  {
    var s, t := BigEndian32(a), BigEndian32(b);
    Value32Injective(Reverse(s), Reverse(t));
    assert forall k :: 0 <= k < 4 ==> s[k] == Reverse(s)[3 - k] && t[k] == Reverse(t)[3 - k];
    assert s == t;
    BigEndian32RoundTrip(a);
    BigEndian32RoundTrip(b);
  }

  lemma Value32Injective(s: bytes, t: bytes)
    requires |s| == |t| == 4 && Value32(s) == Value32(t)
    ensures s == t
  {
    var h, l, h', l' := Value16(s[..2]), Value16(s[2..]), Value16(t[..2]), Value16(t[2..]);
    assert h == h' && l == l';
    assert s[..2][0] == t[..2][0] && s[..2][1] == t[..2][1];
    assert s[2..][0] == t[2..][0] && s[2..][1] == t[2..][1];
    assert s == s[..2] + s[2..] && t == t[..2] + t[2..];
  }
}
