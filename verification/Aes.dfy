/** The cipher object and the encrypted blob handle: chunk loops over arrays, in place or through
    a callback that places each chunk, all equal to one pass of counter mode. */
module Aes {
  import opened Bytes
  import opened Ctr

  /** `s` with the bytes from `at` on replaced by `patch`. */
  function Overwrite(s: bytes, at: nat, patch: bytes): (r: bytes)
    requires at + |patch| <= |s|
    ensures |r| == |s|
  {
    s[..at] + patch + s[at + |patch|..]
  }

  lemma OverwriteIs(s: bytes, at: nat, patch: bytes, i: nat)
    requires at + |patch| <= |s| && i < |s|
    ensures Overwrite(s, at, patch)[i] == if at <= i < at + |patch| then patch[i - at] else s[i]
  {}

  lemma OverwriteTwice(s: bytes, at: nat, a: bytes, b: bytes)
    requires at + |a| + |b| <= |s|
    ensures Overwrite(Overwrite(s, at, a), at + |a|, b) == Overwrite(s, at, a + b)
  {}

  class Cipher {
    var e: BlockCipher
    var ctr: Counter

    constructor (key: BlockCipher, salt: Counter)
      ensures e == key && ctr == salt
    {
      e, ctr := key, salt;
    }

    /** Combines up to one block of key stream with the source. */
    method XorBlock(dst: array<byte>, d: nat, src: array<byte>, s: nat, n: nat, block: bytes)
      requires d + n <= dst.Length && s + n <= src.Length && n <= |block| && (dst == src ==> d == s)
      modifies dst
      ensures forall i :: 0 <= i < dst.Length && !(d <= i < d + n) ==> dst[i] == old(dst[i])
      ensures dst[..] == Overwrite(old(dst[..]), d,
                seq(n, i requires 0 <= i < n => Xor(old(src[s..s + n])[i], block[i])))
    {
      ghost var was, source := dst[..], src[s..s + n];
      for k := 0 to n
        invariant forall i :: 0 <= i < dst.Length && !(d <= i < d + k) ==> dst[i] == was[i]
        invariant forall i :: 0 <= i < k ==> dst[d + i] == Xor(source[i], block[i])
        invariant forall i :: k <= i < n ==> src[s + i] == source[i]
      {
        dst[d + k] := Xor(src[s + k], block[k]);
      }
      assert dst[..] == Overwrite(was, d, seq(n, i requires 0 <= i < n => Xor(source[i], block[i])));
    }

    /** Counter mode over `length` bytes; the counter steps once for every block it touches. */
    method CtrCrypt(length: nat, dst: array<byte>, d: nat, src: array<byte>, s: nat)
      requires d + length <= dst.Length && s + length <= src.Length && (dst == src ==> d == s)
      modifies this`ctr, dst
      ensures dst[..] == Overwrite(old(dst[..]), d, Crypt(e, old(ctr), old(src[s..s + length])))
      ensures ctr == Advance(old(ctr), Blocks(length))
    {
      hide Crypt, Overwrite, Advance, Blocks;
      ghost var c0, was, source := ctr, dst[..], src[s..s + length];
      CryptNothing(e, c0, was, d);
      var i := 0;
      assert source[..0] == [] && source[0..] == source;
      while i < length
        invariant i <= length && (i < length ==> i % BLOCK_SIZE == 0)
        invariant ctr == Advance(c0, Blocks(i))
        invariant dst[..] == Overwrite(was, d, Crypt(e, c0, source[..i]))
        invariant forall k :: i <= k < length ==> src[s + k] == source[k]
        decreases length - i
      {
        var n := Min(BLOCK_SIZE, length - i);
        ghost var here := ctr;
        var block := e(ctr);
        ctr := (ctr + 1) % COUNTERS;
        assert src[s + i..s + i + n] == source[i..i + n];
        XorBlock(dst, d + i, src, s + i, n, block);
        BlockStep(e, c0, here, source, i, n);
        OverwriteTwice(was, d, Crypt(e, c0, source[..i]), Crypt(e, here, source[i..i + n]));
        i := i + n;
      }
      assert source[..length] == source;
    }

    /** The chunk loop of both directions; source and destination may be one buffer. */
    method Encrypt(src: array<byte>, dst: array<byte>, size: uint32)
      requires size <= src.Length && size <= dst.Length
      modifies this`ctr, dst
      ensures dst[..] == Overwrite(old(dst[..]), 0, Crypt(e, old(ctr), old(src[..size])))
      ensures ctr == Advance(old(ctr), Blocks(size))
    {
      hide Crypt, Overwrite, Advance, Blocks;
      ghost var c0, was, source := ctr, dst[..], src[..size];
      CryptNothing(e, c0, was, 0);
      assert source[..0] == [];
      var done := 0;
      while done < size
        invariant done <= size && (done < size ==> done % CHUNK_SIZE == 0)
        invariant ctr == Advance(c0, Blocks(done))
        invariant dst[..] == Overwrite(was, 0, Crypt(e, c0, source[..done]))
        invariant forall k :: done <= k < size ==> src[k] == source[k]
      {
        var n := if size - done < CHUNK_SIZE then size - done else CHUNK_SIZE;
        ghost var here, before := ctr, dst[..];
        assert src[done..done + n] == source[done..done + n];
        CtrCrypt(n, dst, done, src, done);
        ChunkStep(e, c0, source, done, n);
        OverwriteTwice(was, 0, Crypt(e, c0, source[..done]), Crypt(e, here, source[done..done + n]));
        if src == dst { OverwriteKeeps(before, done, Crypt(e, here, source[done..done + n])); }
        done := done + n;
      }
      assert source[..size] == source;
    }
  }

  /** An open blob of the store: fixed-size data and, in encrypted mode, a cipher set to the salt. */
  class Blob {
    const data: array<byte>
    const mode: bool
    const aes: Cipher

    constructor (data: array<byte>, mode: bool, key: BlockCipher, salt: Counter)
      ensures this.data == data && this.mode == mode
      ensures fresh(aes) && aes.e == key && aes.ctr == salt
    {
      this.data, this.mode := data, mode;
      aes := new Cipher(key, salt);
    }

    /** Positioned write of the database blob: all or nothing. */
    method Place(src: bytes, offset: nat) returns (ok: bool)
      modifies data
      ensures ok == (offset + |src| <= data.Length)
      ensures data[..] == if ok then Overwrite(old(data[..]), offset, src) else old(data[..])
    {
      ok := offset + |src| <= data.Length;
      if ok {
        ghost var was := data[..];
        for k := 0 to |src|
          invariant forall i :: 0 <= i < data.Length && !(offset <= i < offset + k) ==> data[i] == was[i]
          invariant forall i :: 0 <= i < k ==> data[offset + i] == src[i]
        {
          data[offset + k] := src[k];
        }
        assert data[..] == Overwrite(was, offset, src);
      }
    }

    /** Writes at an offset. In encrypted mode each 1024-byte chunk is encrypted into a scratch
        buffer and placed where the callback computes it; the first chunk that does not fit stops
        the write. */
    method Write(src: array<byte>, size: uint32, offset: nat) returns (ok: bool)
      requires size <= src.Length && src != data
      modifies data, aes
      ensures aes.e == old(aes.e)
      ensures ok == (offset + size <= data.Length || (mode && size == 0))
      ensures ok && size > 0 ==> data[..] == Overwrite(old(data[..]), offset,
                if mode then Crypt(aes.e, old(aes.ctr), src[..size]) else src[..size])
      ensures !ok ==> data[..Min(offset, data.Length)] == old(data[..Min(offset, data.Length)])
      ensures ok && mode ==> aes.ctr == Advance(old(aes.ctr), Blocks(size))
    {
      if mode {
        ok := WriteEncrypted(src, size, offset);
      } else {
        ok := Place(src[..size], offset);
      }
    }

    method WriteEncrypted(src: array<byte>, size: uint32, offset: nat) returns (ok: bool)
      requires size <= src.Length && src != data
      modifies data, aes
      ensures aes.e == old(aes.e)
      ensures ok == (offset + size <= data.Length || size == 0)
      ensures ok && size > 0 ==>
                data[..] == Overwrite(old(data[..]), offset, Crypt(aes.e, old(aes.ctr), src[..size]))
      ensures !ok ==> data[..Min(offset, data.Length)] == old(data[..Min(offset, data.Length)])
      ensures ok ==> aes.ctr == Advance(old(aes.ctr), Blocks(size))
    {
      hide Crypt, Overwrite, Advance, Blocks;
      ghost var e, c0, was, source := aes.e, aes.ctr, data[..], src[..size];
      CryptNothing(e, c0, was, 0);
      var tmp := new byte[CHUNK_SIZE](_ => 0);
      var done := 0;
      while done < size
        invariant done <= size && (done < size ==> done % CHUNK_SIZE == 0)
        invariant aes.e == e && aes.ctr == Advance(c0, Blocks(done)) && src[..size] == source
        invariant if done == 0 then data[..] == was else offset + done <= |was|
        invariant done > 0 ==> data[..] == Overwrite(was, offset, Crypt(e, c0, source[..done]))
      {
        var n := if size - done < CHUNK_SIZE then size - done else CHUNK_SIZE;
        ok := PutChunk(tmp, src, done, n, offset, c0, was, source);
        if !ok {
          return;
        }
        done := done + n;
      }
      assert source[..size] == source;
      ok := true;
    }

    /** Encrypts one chunk into the scratch buffer. */
    method ChunkInto(tmp: array<byte>, src: array<byte>, done: nat, n: nat)
      requires n <= tmp.Length && done + n <= src.Length && tmp != src && tmp != data
      modifies tmp, aes
      ensures aes.e == old(aes.e) && aes.ctr == Advance(old(aes.ctr), Blocks(n))
      ensures tmp[..n] == Crypt(aes.e, old(aes.ctr), src[done..done + n])
    {
      hide Crypt, Advance, Blocks, Overwrite;
      ghost var scratch := tmp[..];
      aes.CtrCrypt(n, tmp, 0, src, done);
      OverwriteFirst(scratch, Crypt(aes.e, old(aes.ctr), src[done..done + n]));
    }

    /** One turn of the callback loop: a chunk is encrypted and written behind the earlier ones. */
    method PutChunk(tmp: array<byte>, src: array<byte>, done: nat, n: nat, offset: nat,
                    ghost c0: Counter, ghost was: bytes, ghost source: bytes) returns (ok: bool)
      requires 0 < n <= tmp.Length && done + n <= src.Length && tmp != src && tmp != data && src != data
      requires done % CHUNK_SIZE == 0 && done + n <= |source| <= src.Length && src[..|source|] == source
      requires |was| == data.Length && aes.ctr == Advance(c0, Blocks(done))
      requires if done == 0 then data[..] == was
               else offset + done <= |was| && data[..] == Overwrite(was, offset, Crypt(aes.e, c0, source[..done]))
      modifies tmp, data, aes
      ensures ok == (offset + done + n <= data.Length) && aes.e == old(aes.e)
      ensures ok ==> aes.ctr == Advance(c0, Blocks(done + n))
                     && data[..] == Overwrite(was, offset, Crypt(aes.e, c0, source[..done + n]))
      ensures !ok ==> data[..Min(offset, |was|)] == was[..Min(offset, |was|)]
    {
      hide Crypt, Overwrite, Advance, Blocks;
      ghost var e, here, before := aes.e, aes.ctr, data[..];
      assert forall k :: done <= k < done + n ==> src[k] == src[..|source|][k];
      assert src[done..done + n] == source[done..done + n];
      ChunkInto(tmp, src, done, n);
      ok := Place(tmp[..n], offset + done);
      if ok {
        assert before == Overwrite(was, offset, Crypt(e, c0, source[..done])) by {
          if done == 0 {
            CryptNothing(e, c0, was, offset);
            assert source[..0] == [];
          }
        }
        ChunkStep(e, c0, source, done, n);
        BlobStep(e, c0, was, offset, source, done, n);
      } else {
        if done > 0 {
          OverwritePrefix(was, offset, Crypt(e, c0, source[..done]));
        }
        assert data[..Min(offset, |was|)] == before[..Min(offset, |was|)];
      }
    }

    /** Reads part of the blob and, in encrypted mode, decrypts it with the running counter. */
    method Read(dst: array<byte>, size: uint32, offset: nat) returns (ok: bool)
      requires size <= dst.Length && dst != data
      modifies dst, aes
      ensures aes.e == old(aes.e) && ok == (offset + size <= data.Length)
      ensures ok ==> dst[..] == Overwrite(old(dst[..]), 0,
                if mode then Crypt(aes.e, old(aes.ctr), data[offset..offset + size])
                else data[offset..offset + size])
      ensures !ok ==> dst[..] == old(dst[..])
    {
      hide Crypt, Advance;
      ok := offset + size <= data.Length;
      if ok {
        CopyOut(dst, size, offset);
        if mode {
          ghost var part := data[offset..offset + size];
          OverwriteFirst(old(dst[..]), part);
          assert dst[..size] == part;
          aes.Encrypt(dst, dst, size);
        }
      }
    }

    method CopyOut(dst: array<byte>, size: nat, offset: nat)
      requires size <= dst.Length && dst != data && offset + size <= data.Length
      modifies dst
      ensures dst[..] == Overwrite(old(dst[..]), 0, data[offset..offset + size])
    {
      ghost var was := dst[..];
      for k := 0 to size
        invariant forall i :: k <= i < dst.Length ==> dst[i] == was[i]
        invariant forall i :: 0 <= i < k ==> dst[i] == data[offset + i]
      {
        dst[k] := data[offset + k];
      }
    }
  }

  /** Writing a whole blob and reading it back through a freshly opened handle restores it. */
  method WholeBlobRoundTrip(key: BlockCipher, salt: Counter, mode: bool, plain: array<byte>)
      returns (back: array<byte>)
    requires plain.Length < TWO_32
    ensures fresh(back) && back[..] == plain[..]
  {
    hide Crypt;
    var data := new byte[plain.Length](_ => 0);
    var writer := new Blob(data, mode, key, salt);
    var ok := writer.Write(plain, plain.Length, 0);
    assert plain[..plain.Length] == plain[..];
    ghost var stored := if mode then Crypt(key, salt, plain[..]) else plain[..];
    OverwriteAll(data[..], stored);
    assert data[..] == stored;
    var reader := new Blob(data, mode, key, salt);
    back := new byte[plain.Length](_ => 0);
    assert data[0..plain.Length] == data[..];
    ok := reader.Read(back, plain.Length, 0);
    CryptInvolution(key, salt, plain[..]);
    OverwriteAll(back[..], plain[..]);
  }

  lemma OverwriteAll(s: bytes, patch: bytes)
    requires |patch| == |s|
    ensures Overwrite(s, 0, patch) == patch
    ensures forall t: bytes :: |t| == |patch| ==> Overwrite(t, 0, patch) == patch
  {}

  lemma OverwriteKeeps(s: bytes, at: nat, patch: bytes)
    requires at + |patch| <= |s|
    ensures forall k :: at + |patch| <= k < |s| ==> Overwrite(s, at, patch)[k] == s[k]
  {}

  lemma OverwritePrefix(s: bytes, at: nat, patch: bytes)
    requires at + |patch| <= |s|
    ensures Overwrite(s, at, patch)[..at] == s[..at]
  {}

  lemma OverwriteFirst(s: bytes, patch: bytes)
    requires |patch| <= |s|
    ensures Overwrite(s, 0, patch)[..|patch|] == patch
  {}

  lemma BlobStep(e: BlockCipher, c0: Counter, was: bytes, at: nat, source: bytes, i: nat, n: nat)
    requires i % CHUNK_SIZE == 0 && i + n <= |source| && at + i + n <= |was|
    ensures Overwrite(Overwrite(was, at, Crypt(e, c0, source[..i])), at + i,
                      Crypt(e, Advance(c0, Blocks(i)), source[i..i + n]))
            == Overwrite(was, at, Crypt(e, c0, source[..i + n]))
  {
    ChunkStep(e, c0, source, i, n);
    hide Crypt, Overwrite, Advance, Blocks;
    OverwriteTwice(was, at, Crypt(e, c0, source[..i]), Crypt(e, Advance(c0, Blocks(i)), source[i..i + n]));
  }

  /** A full chunk ends at a block boundary, so the running counter is the stream's own. */
  lemma ChunkStep(e: BlockCipher, c0: Counter, source: bytes, i: nat, n: nat)
    requires i % CHUNK_SIZE == 0 && i + n <= |source|
    ensures var here := Advance(c0, Blocks(i));
            && Crypt(e, c0, source[..i]) + Crypt(e, here, source[i..i + n]) == Crypt(e, c0, source[..i + n])
            && Advance(here, Blocks(n)) == Advance(c0, Blocks(i + n))
  {
    var a, b := source[..i], source[i..i + n];
    assert a + b == source[..i + n];
    hide Crypt, Advance, Blocks;
    var q := 64 * (i / CHUNK_SIZE);
    assert i == q * BLOCK_SIZE;
    DivModUnique(i, BLOCK_SIZE, q, 0);
    CryptSplit(e, c0, a, b);
    BlocksOf(q, n);
    BlocksOf(q, 0);
    NoBlocks();
    AdvanceAdvance(c0, Blocks(i), Blocks(n));
  }

  lemma NoBlocks()
    ensures Blocks(0) == 0
  {}

  lemma CryptNothing(e: BlockCipher, ctr: Counter, s: bytes, at: nat)
    requires at <= |s|
    ensures Crypt(e, ctr, []) == [] && Overwrite(s, at, []) == s && Advance(ctr, Blocks(0)) == ctr
  {}

  lemma BlockStep(e: BlockCipher, c0: Counter, here: Counter, source: bytes, i: nat, n: nat)
    requires i % BLOCK_SIZE == 0 && i < |source| && n == Min(BLOCK_SIZE, |source| - i)
    requires here == Advance(c0, Blocks(i))
    ensures Crypt(e, c0, source[..i]) + Crypt(e, here, source[i..i + n]) == Crypt(e, c0, source[..i + n])
    ensures (here + 1) % COUNTERS == Advance(c0, Blocks(i + n))
    ensures Crypt(e, here, source[i..i + n])
         == seq(n, k requires 0 <= k < n => Xor(source[i..i + n][k], e(here)[k]))
  {
    var a, b := source[..i], source[i..i + n];
    assert a + b == source[..i + n];
    CryptSplit(e, c0, a, b);
    AdvanceAdvance(c0, Blocks(i), 1);
    BlocksOf(i / BLOCK_SIZE, n);
    BlocksOf(i / BLOCK_SIZE, 0);
    FirstBlock(e, here, b);
  }

  lemma FirstBlock(e: BlockCipher, ctr: Counter, data: bytes)
    requires |data| <= BLOCK_SIZE
    ensures Crypt(e, ctr, data) == seq(|data|, k requires 0 <= k < |data| => Xor(data[k], e(ctr)[k]))
  {
    hide Xor;
    forall k | 0 <= k < |data| ensures KeyStream(e, ctr, k) == e(ctr)[k] {}
  }
}
