/** The locked-memory allocator: first fit over the blocks in address order, exact accounting, and
    zeroing on free. */
module SecMem {
  import opened Options
  import opened Bytes

  /** An allocated block: its offset in the locked memory and its size. */
  datatype Block = Block(at: nat, size: nat)

  predicate Clear(b: Block, x: nat, n: nat) {
    x + n <= b.at || b.at + b.size <= x
  }

  /** `n` bytes at `x` lie in the locked memory and touch no block. */
  ghost predicate Fits(blocks: seq<Block>, locked: nat, x: nat, n: nat) {
    x + n <= locked && forall i :: 0 <= i < |blocks| ==> Clear(blocks[i], x, n)
  }

  /** A byte of the locked memory that is in no block. */
  ghost predicate Vacant(blocks: seq<Block>, locked: nat, y: nat) {
    y < locked && forall i :: 0 <= i < |blocks| ==> !(blocks[i].at <= y < blocks[i].at + blocks[i].size)
  }

  /** A request fits where all its bytes are vacant. */
  lemma FitsIff(blocks: seq<Block>, locked: nat, x: nat, n: nat)
    requires n > 0 && forall i :: 0 <= i < |blocks| ==> blocks[i].size > 0
    ensures Fits(blocks, locked, x, n) <==> forall y :: x <= y < x + n ==> Vacant(blocks, locked, y)
  {
    if forall y :: x <= y < x + n ==> Vacant(blocks, locked, y) {
      assert Vacant(blocks, locked, x + n - 1);
      forall i | 0 <= i < |blocks| ensures Clear(blocks[i], x, n) {
        var y := if x < blocks[i].at then blocks[i].at else x;
        assert x <= y < x + n ==> Vacant(blocks, locked, y);
      }
    }
  }

  /** Entries in address order, in bounds and disjoint; an entry may be empty. */
  ghost predicate Orderly(blocks: seq<Block>, locked: nat) {
    && (forall i :: 0 <= i < |blocks| ==> blocks[i].at + blocks[i].size <= locked)
    && (forall i, j :: 0 <= i < j < |blocks| ==>
          blocks[i].at + blocks[i].size <= blocks[j].at && blocks[i].at < blocks[j].at)
  }

  /** No entry is empty. */
  ghost predicate Sound(blocks: seq<Block>, locked: nat) {
    Orderly(blocks, locked) && forall i :: 0 <= i < |blocks| ==> blocks[i].size > 0
  }

  /** The position of the first block at or behind an address. */
  function Position(blocks: seq<Block>, at: nat): (p: nat)
    ensures p <= |blocks| && (p < |blocks| ==> at <= blocks[p].at)
    ensures forall i :: 0 <= i < p ==> blocks[i].at < at
    decreases |blocks|
  {
    if blocks == [] || at <= blocks[0].at then 0
    else
      var p := Position(blocks[1..], at);
      assert forall i :: 0 < i < 1 + p ==> blocks[i] == blocks[1..][i - 1];
      1 + p
  }

  predicate Has(blocks: seq<Block>, at: nat) {
    var p := Position(blocks, at);
    p < |blocks| && blocks[p].at == at
  }

  /** The map entry for an address: set if there, else inserted in order. */
  function Put(blocks: seq<Block>, b: Block): seq<Block> {
    var p := Position(blocks, b.at);
    blocks[..p] + [b] + blocks[if Has(blocks, b.at) then p + 1 else p..]
  }

  function Erase(blocks: seq<Block>, at: nat): seq<Block>
    requires Has(blocks, at)
  {
    var p := Position(blocks, at);
    blocks[..p] + blocks[p + 1..]
  }

  function Sum(blocks: seq<Block>): nat
    decreases |blocks|
  {
    if blocks == [] then 0 else Sum(blocks[..|blocks| - 1]) + blocks[|blocks| - 1].size
  }

  lemma {:induction false} SumAppend(a: seq<Block>, b: seq<Block>)
    ensures Sum(a + b) == Sum(a) + Sum(b)
    decreases |b|
  {
    if b == [] {
      assert a + b == a;
    } else {
      assert (a + b)[..|a + b| - 1] == a + b[..|b| - 1];
      SumAppend(a, b[..|b| - 1]);
    }
  }

  lemma SumOne(b: Block)
    ensures Sum([b]) == b.size
  {
    assert [b][..0] == [];
  }

  /** Disjoint blocks in bounds cannot add up to more than the locked memory. */
  lemma {:induction false} SumBound(blocks: seq<Block>, locked: nat)
    requires Orderly(blocks, locked)
    ensures Sum(blocks) <= locked
    ensures blocks != [] ==> Sum(blocks) <= blocks[|blocks| - 1].at + blocks[|blocks| - 1].size
    decreases |blocks|
  {
    if blocks != [] {
      SumBound(blocks[..|blocks| - 1], locked);
    }
  }

  lemma PositionIs(blocks: seq<Block>, at: nat, p: nat)
    requires p <= |blocks| && (p < |blocks| ==> at <= blocks[p].at)
    requires forall i :: 0 <= i < p ==> blocks[i].at < at
    ensures Position(blocks, at) == p
  {
    hide Position;
  }

  lemma SumInsert(blocks: seq<Block>, p: nat, b: Block)
    requires p <= |blocks|
    ensures Sum(blocks[..p] + [b] + blocks[p..]) == Sum(blocks) + b.size
  {
    hide Sum;
    assert blocks[..p] + blocks[p..] == blocks;
    SumAppend(blocks[..p], blocks[p..]);
    SumAppend(blocks[..p] + [b], blocks[p..]);
    SumAppend(blocks[..p], [b]);
    SumOne(b);
  }

  /** A block put into a hole: the others stay, the list stays sound, and erasing it gives them back. */
  lemma PutSound(blocks: seq<Block>, b: Block, locked: nat)
    requires Sound(blocks, locked) && b.size > 0 && Fits(blocks, locked, b.at, b.size)
    ensures !Has(blocks, b.at) && Sound(Put(blocks, b), locked)
    ensures Has(Put(blocks, b), b.at) && Put(blocks, b)[Position(Put(blocks, b), b.at)] == b
    ensures Erase(Put(blocks, b), b.at) == blocks
    ensures Sum(Put(blocks, b)) == Sum(blocks) + b.size
  {
    hide Position, Sum, Put, Erase, Has;
    var p := Position(blocks, b.at);
    HoleIsNew(blocks, b, locked);
    PutAt(blocks, b);
    SumInsert(blocks, p, b);
    InsertSound(blocks, p, b, locked);
  }

  lemma HoleIsNew(blocks: seq<Block>, b: Block, locked: nat)
    requires Sound(blocks, locked) && b.size > 0 && Fits(blocks, locked, b.at, b.size)
    ensures !Has(blocks, b.at)
  {
    hide Position;
    assert forall i :: 0 <= i < |blocks| ==> Clear(blocks[i], b.at, b.size);
  }

  lemma PutAt(blocks: seq<Block>, b: Block)
    requires !Has(blocks, b.at)
    ensures var p, put := Position(blocks, b.at), Put(blocks, b);
            && put == blocks[..p] + [b] + blocks[p..] && put[p] == b
            && Position(put, b.at) == p && Has(put, b.at) && Erase(put, b.at) == blocks
  {
    hide Position;
    var p, put := Position(blocks, b.at), Put(blocks, b);
    PositionIs(put, b.at, p);
    assert put[..p] + put[p + 1..] == blocks;
  }

  lemma InsertSound(blocks: seq<Block>, p: nat, b: Block, locked: nat)
    requires Sound(blocks, locked) && b.size > 0 && Fits(blocks, locked, b.at, b.size) && p <= |blocks|
    requires (p < |blocks| ==> b.at <= blocks[p].at) && forall i :: 0 <= i < p ==> blocks[i].at < b.at
    ensures Sound(blocks[..p] + [b] + blocks[p..], locked)
  {
    assert forall i :: 0 <= i < |blocks| ==> Clear(blocks[i], b.at, b.size);
  }

  /** Erasing a block keeps the list sound; putting it back gives the same list. */
  lemma EraseSound(blocks: seq<Block>, at: nat, locked: nat)
    requires Orderly(blocks, locked) && Has(blocks, at)
    ensures Orderly(Erase(blocks, at), locked) && !Has(Erase(blocks, at), at)
    ensures Sound(blocks, locked) ==> Sound(Erase(blocks, at), locked)
    ensures Put(Erase(blocks, at), blocks[Position(blocks, at)]) == blocks
    ensures Sum(Erase(blocks, at)) + blocks[Position(blocks, at)].size == Sum(blocks)
  {
    hide Position, Sum, Orderly, Sound, Put, Erase, Has;
    var p, rest := Position(blocks, at), Erase(blocks, at);
    EraseIs(blocks, at);
    EraseOrderly(blocks, p, locked);
    PutBack(rest, blocks[p], p);
    SumInsert(rest, p, blocks[p]);
  }

  lemma EraseIs(blocks: seq<Block>, at: nat)
    requires Has(blocks, at)
    ensures var p, rest := Position(blocks, at), Erase(blocks, at);
            && p < |blocks| && blocks[p].at == at && rest == blocks[..p] + blocks[p + 1..]
            && rest[..p] + [blocks[p]] + rest[p..] == blocks
  {
    hide Position;
  }

  lemma PutBack(rest: seq<Block>, b: Block, p: nat)
    requires p <= |rest| && (p < |rest| ==> b.at < rest[p].at)
    requires forall i :: 0 <= i < p ==> rest[i].at < b.at
    ensures !Has(rest, b.at) && Put(rest, b) == rest[..p] + [b] + rest[p..]
  {
    hide Position;
    PositionIs(rest, b.at, p);
  }

  lemma EraseOrderly(blocks: seq<Block>, p: nat, locked: nat)
    requires Orderly(blocks, locked) && p < |blocks|
    ensures var rest := blocks[..p] + blocks[p + 1..];
            && Orderly(rest, locked) && (Sound(blocks, locked) ==> Sound(rest, locked))
            && (forall i :: 0 <= i < p ==> rest[i].at < blocks[p].at) && (p < |rest| ==> blocks[p].at < rest[p].at)
  {}

  // ----- first fit -----

  /** The answer of a complete first fit: the lowest place where `n` bytes fit, or none if there is none. */
  ghost predicate FirstFit(blocks: seq<Block>, locked: nat, n: nat, r: Option<nat>) {
    match r
    case Some(o) => Fits(blocks, locked, o, n) && forall x: nat :: x < o ==> !Fits(blocks, locked, x, n)
    case None => forall x: nat :: !Fits(blocks, locked, x, n)
  }

  /** Where an empty request ends up: at 0, or behind a block that starts there. */
  function EmptyOffset(blocks: seq<Block>, locked: nat): Option<nat> {
    if blocks == [] then (if locked > 0 then Some(0) else None)
    else if blocks[0].at > 0 then Some(0)
    else Some(blocks[0].size)
  }

  /** An empty request is answered exactly if there is a block or locked memory; the answer is 0, or the
      end of a block at 0. */
  lemma EmptyOffsetIs(blocks: seq<Block>, locked: nat)
    ensures EmptyOffset(blocks, locked).None? <==> blocks == [] && locked == 0
    ensures blocks != [] && blocks[0].at == 0 ==> EmptyOffset(blocks, locked) == Some(blocks[0].size)
    ensures (if blocks == [] then locked > 0 else blocks[0].at > 0) ==> EmptyOffset(blocks, locked) == Some(0)
  {}

  /** The entries after a request and after a free: as before, with the new one and without the freed. */
  lemma EntriesAre(blocks: seq<Block>, locked: nat, b: Block)
    requires Orderly(blocks, locked)
    ensures forall x :: x in Put(blocks, b) <==> x == b || (x in blocks && x.at != b.at)
    ensures Has(blocks, b.at) <==> exists x :: x in blocks && x.at == b.at
    ensures Has(blocks, b.at) ==> forall x :: x in Erase(blocks, b.at) <==> x in blocks && x.at != b.at
  {
    hide Position;
    var p := Position(blocks, b.at);
    forall i | 0 <= i < |blocks| ensures blocks[i].at == b.at <==> i == p && Has(blocks, b.at) {
      if i > p { assert blocks[p].at < blocks[i].at; }
    }
  }

  /** The end of the first `i` blocks. */
  function EndOf(blocks: seq<Block>, i: nat): nat
    requires i <= |blocks|
  {
    if i == 0 then 0 else blocks[i - 1].at + blocks[i - 1].size
  }

  /** Nothing fits below the end of the first `i` blocks. */
  ghost predicate NoneBelow(blocks: seq<Block>, locked: nat, n: nat, i: nat)
    requires i <= |blocks|
  {
    forall x: nat :: x < EndOf(blocks, i) ==> !Fits(blocks, locked, x, n)
  }

  lemma HoleTooSmall(blocks: seq<Block>, locked: nat, n: nat, i: nat)
    requires Orderly(blocks, locked) && n > 0 && i < |blocks| && NoneBelow(blocks, locked, n, i)
    requires blocks[i].at - EndOf(blocks, i) < n
    ensures NoneBelow(blocks, locked, n, i + 1)
  {
    forall x: nat | x < EndOf(blocks, i + 1) ensures !Fits(blocks, locked, x, n) {
      if x >= EndOf(blocks, i) {
        assert !Clear(blocks[i], x, n);
      }
    }
  }

  lemma HoleFits(blocks: seq<Block>, locked: nat, n: nat, i: nat)
    requires Orderly(blocks, locked) && i <= |blocks|
    requires EndOf(blocks, i) + n <= if i < |blocks| then blocks[i].at else locked
    ensures Fits(blocks, locked, EndOf(blocks, i), n)
  {
    forall j | 0 <= j < |blocks| ensures Clear(blocks[j], EndOf(blocks, i), n) {
      if j < i - 1 {
        assert blocks[j].at + blocks[j].size <= blocks[i - 1].at;
      } else if j > i {
        assert blocks[i].at <= blocks[j].at;
      }
    }
  }

  lemma TailTooSmall(blocks: seq<Block>, locked: nat, n: nat)
    requires Orderly(blocks, locked) && n > 0 && NoneBelow(blocks, locked, n, |blocks|)
    requires locked - EndOf(blocks, |blocks|) < n
    ensures FirstFit(blocks, locked, n, None)
  {}

  // ----- the allocator -----

  function Zeroed(s: bytes, at: nat, n: nat): bytes
    requires at + n <= |s|
  {
    seq(|s|, i requires 0 <= i < |s| => if at <= i < at + n then 0 else s[i])
  }

  class Allocator {
    const locked: nat
    const data: array<byte>
    var blocks: seq<Block>

    ghost predicate Valid()
      reads this
    {
      locked < TWO_32 && locked == data.Length && Orderly(blocks, locked)
    }

    constructor (size: uint32)
      ensures Valid() && locked == size && blocks == [] && fresh(data)
    {
      locked, blocks := size, [];
      data := new byte[size];
    }

    method GetOffset(size: uint32) returns (r: Option<nat>)
      requires Valid()
      ensures if size > 0 then FirstFit(blocks, locked, size, r) else r == EmptyOffset(blocks, locked)
    {
      hide Fits, Clear;
      var o: uint32, s: uint32 := 0, 0;
      for i := 0 to |blocks|
        invariant o == EndOf(blocks, i) && s == 0
        invariant if size > 0 then NoneBelow(blocks, locked, size, i) else i == 0
      {
        var tmp: uint32 := blocks[i].at;
        if tmp > o {
          s := tmp - o;
        } else {
          s := 0;
          o := tmp + blocks[i].size;
        }
        if size <= s {
          if size > 0 { HoleFits(blocks, locked, size, i); }
          return Some(o);
        }
        HoleTooSmall(blocks, locked, size, i);
        s := 0;
        o := tmp + blocks[i].size;
      }
      o := o + s;
      s := Wrap(locked - o);
      if s > 0 && size <= s {
        if size > 0 { HoleFits(blocks, locked, size, |blocks|); }
        return Some(o);
      }
      if size > 0 { TailTooSmall(blocks, locked, size); }
      r := None;
    }

    method Malloc(size: uint32) returns (r: Option<nat>)
      requires Valid()
      modifies this`blocks
      ensures Valid() && (size > 0 && Sound(old(blocks), locked) ==> Sound(blocks, locked))
      ensures if size > 0 then FirstFit(old(blocks), locked, size, r)
              else r == if locked > 0 then EmptyOffset(old(blocks), locked) else None
      ensures blocks == if r.Some? then Put(old(blocks), Block(r.value, size)) else old(blocks)
    {
      hide Put, FirstFit, Fits;
      r := None;
      if locked > 0 {
        r := GetOffset(size);
        if r.Some? {
          PutKeeps(blocks, Block(r.value, size), locked);
          blocks := Put(blocks, Block(r.value, size));
        }
      } else {
        NothingLocked(blocks, size);
      }
    }

    method Free(at: nat) returns (ok: bool)
      requires Valid()
      modifies this`blocks, data
      ensures Valid() && (Sound(old(blocks), locked) ==> Sound(blocks, locked))
      ensures ok == (locked > 0 && Has(old(blocks), at))
      ensures !ok ==> blocks == old(blocks) && data[..] == old(data[..])
      ensures ok ==> blocks == Erase(old(blocks), at)
      ensures ok ==> var b := old(blocks)[Position(old(blocks), at)];
                     b.at + b.size <= data.Length && data[..] == Zeroed(old(data[..]), at, b.size)
    {
      hide Position;
      ok := false;
      if locked > 0 && Has(blocks, at) {
        var size := blocks[Position(blocks, at)].size;
        for k := 0 to size
          invariant blocks == old(blocks)
          invariant forall i :: 0 <= i < data.Length ==> data[i] == if at <= i < at + k then 0 else old(data[i])
        {
          data[at + k] := 0;
        }
        EraseSound(blocks, at, locked);
        blocks := Erase(blocks, at);
        ok := true;
      }
    }

    /** No 32-bit sum overflows, since the blocks share the locked memory. */
    method Used() returns (n: uint32)
      requires Valid()
      ensures n == Sum(blocks) <= locked
    {
      n := 0;
      SumBound(blocks, locked);
      for i := 0 to |blocks|
        invariant n == Sum(blocks[..i])
      {
        assert blocks[..i + 1][..i] == blocks[..i];
        SumBound(blocks[..i + 1], locked);
        n := n + blocks[i].size;
      }
      assert blocks[..|blocks|] == blocks;
    }

    method Available() returns (n: uint32)
      requires Valid()
      ensures n + Sum(blocks) == locked
    {
      var used := Used();
      n := locked - used;
    }
  }

  /** An answered request keeps the entries orderly: a block goes into a hole, perhaps in place of an
      empty entry; an empty request touches no bytes. */
  lemma PutKeeps(blocks: seq<Block>, b: Block, locked: nat)
    requires Orderly(blocks, locked)
    requires if b.size > 0 then FirstFit(blocks, locked, b.size, Some(b.at))
             else EmptyOffset(blocks, locked) == Some(b.at)
    ensures Orderly(Put(blocks, b), locked)
    ensures b.size > 0 && Sound(blocks, locked) ==> Sound(Put(blocks, b), locked)
  {
    hide Position, FirstFit, Put;
    if b.size > 0 {
      FitIsClear(blocks, b, locked);
    }
    ClearPutKeeps(blocks, b, locked);
  }

  lemma {:induction false} ClearPutKeeps(blocks: seq<Block>, b: Block, locked: nat)
    requires Orderly(blocks, locked) && b.at + b.size <= locked
    requires forall i :: 0 <= i < |blocks| ==> Clear(blocks[i], b.at, b.size)
    ensures Orderly(Put(blocks, b), locked)
    ensures b.size > 0 && Sound(blocks, locked) ==> Sound(Put(blocks, b), locked)
  {
    var p := Position(blocks, b.at);
    var q := if Has(blocks, b.at) then p + 1 else p;
    var before, behind := blocks[..p], blocks[q..];
    assert Put(blocks, b) == before + [b] + behind;
    hide Position, Put, Has, Sum;
    SlicesKeep(blocks, p, q, locked);
    hide Orderly, Sound;
    forall i | q <= i < |blocks| ensures b.at < blocks[i].at && b.at + b.size <= blocks[i].at {
      BehindPosition(blocks, b, locked, i);
    }
    forall x | x in before ensures x.at + x.size <= b.at && x.at < b.at {
      var i :| 0 <= i < p && blocks[i] == x;
      assert Clear(blocks[i], b.at, b.size);
    }
    BetweenKeeps(before, b, behind, locked);
    if b.size > 0 && Sound(blocks, locked) {
      BetweenSound(blocks, b, p, q, locked);
    }
  }

  lemma SlicesKeep(blocks: seq<Block>, p: nat, q: nat, locked: nat)
    requires Orderly(blocks, locked) && p <= q <= |blocks|
    ensures Orderly(blocks[..p], locked) && Orderly(blocks[q..], locked)
  {}

  lemma BehindPosition(blocks: seq<Block>, b: Block, locked: nat, i: nat)
    requires Orderly(blocks, locked) && i < |blocks| && Clear(blocks[i], b.at, b.size)
    requires i >= Position(blocks, b.at) + if Has(blocks, b.at) then 1 else 0
    ensures b.at < blocks[i].at && b.at + b.size <= blocks[i].at
  {
    hide Position;
    var p := Position(blocks, b.at);
    assert b.at <= blocks[p].at && (i > p ==> blocks[p].at < blocks[i].at);
    assert i == p ==> blocks[p].at != b.at;
  }

  lemma BetweenSound(blocks: seq<Block>, b: Block, p: nat, q: nat, locked: nat)
    requires Sound(blocks, locked) && p <= q <= |blocks| && b.size > 0
    requires Orderly(blocks[..p] + [b] + blocks[q..], locked)
    ensures Sound(blocks[..p] + [b] + blocks[q..], locked)
  {
    hide Orderly;
  }

  /** A block between two parts of the list that it does not touch. */
  lemma {:induction false} BetweenKeeps(before: seq<Block>, b: Block, behind: seq<Block>, locked: nat)
    requires Orderly(before, locked) && Orderly(behind, locked) && b.at + b.size <= locked
    requires forall x :: x in before ==> x.at + x.size <= b.at && x.at < b.at
    requires forall y :: y in behind ==> b.at + b.size <= y.at && b.at < y.at
    ensures Orderly(before + [b] + behind, locked)
  {
    var all := before + [b] + behind;
    forall i, j | 0 <= i < j < |all| ensures all[i].at + all[i].size <= all[j].at && all[i].at < all[j].at {
      assert i < |before| ==> all[i] == before[i];
      assert j > |before| ==> all[j] == behind[j - |before| - 1];
    }
  }

  lemma FitIsClear(blocks: seq<Block>, b: Block, locked: nat)
    requires FirstFit(blocks, locked, b.size, Some(b.at))
    ensures b.at + b.size <= locked && forall i :: 0 <= i < |blocks| ==> Clear(blocks[i], b.at, b.size)
  {}

  lemma NothingLocked(blocks: seq<Block>, n: nat)
    requires Orderly(blocks, 0)
    ensures n > 0 ==> FirstFit(blocks, 0, n, None)
  {}

  // ----- empty requests -----

  /** The next request of one byte is given the address of an empty request exactly if that is not
      the very end of the memory. */
  lemma NextRequestShares(blocks: seq<Block>, locked: nat, z: nat)
    requires Orderly(blocks, locked) && EmptyOffset(blocks, locked) == Some(z) && z < locked
    ensures FirstFit(Put(blocks, Block(z, 0)), locked, 1, Some(z))
  {
    hide Position;
    var put, p := Put(blocks, Block(z, 0)), Position(blocks, z);
    forall i | 0 <= i < |put| ensures Clear(put[i], z, 1) {
      if i > p {
        assert put[i] in blocks;
      }
    }
    forall x: nat | x < z ensures !Fits(put, locked, x, 1) {
      assert put[0] == blocks[0] && !Clear(put[0], x, 1);
    }
  }

  /** An empty request and a later one are given the same address, so that two owners hold it,
      exactly if the address is not the very end of the memory. */
  lemma EmptyRequestSharesIff(blocks: seq<Block>, locked: nat, z: nat)
    requires Orderly(blocks, locked) && EmptyOffset(blocks, locked) == Some(z)
    ensures (exists n :: n > 0 && FirstFit(Put(blocks, Block(z, 0)), locked, n, Some(z))) <==> z < locked
  {
    if z < locked {
      NextRequestShares(blocks, locked, z);
    }
  }

  /** An empty request replaces the entry of a live block at once exactly if the second block follows
      the first at the very start. */
  lemma EmptyRequestClobbersIff(blocks: seq<Block>, locked: nat)
    requires Sound(blocks, locked) && EmptyOffset(blocks, locked).Some?
    ensures var z := EmptyOffset(blocks, locked).value;
            && (Has(blocks, z) <==> |blocks| >= 2 && blocks[0].at == 0 && blocks[1].at == blocks[0].size)
            && (Has(blocks, z) ==> Put(blocks, Block(z, 0)) == blocks[1 := Block(z, 0)])
  {
    hide Position;
    var z := EmptyOffset(blocks, locked).value;
    if |blocks| >= 2 && blocks[0].at == 0 && blocks[1].at == blocks[0].size {
      PositionIs(blocks, z, 1);
    }
  }

  /** Two live blocks, an empty request, and the next request gets the second block's memory. */
  lemma ClobberedExample()
    ensures var live := [Block(0, 16), Block(16, 16)];
            && Sound(live, 64) && EmptyOffset(live, 64) == Some(16)
            && FirstFit(Put(live, Block(16, 0)), 64, 8, Some(16))
  {
    var live := [Block(0, 16), Block(16, 16)];
    EmptyRequestClobbersIff(live, 64);
    var after := Put(live, Block(16, 0));
    forall x: nat | x < 16 ensures !Fits(after, 64, x, 8) {
      assert !Clear(after[0], x, 8);
    }
  }

  /** An empty request, then one of 16 bytes: both hold address 0, and when the first owner frees it
      the second owner's live block is gone. */
  lemma SharedExample()
    ensures var first := Put([], Block(0, 0));
            var second := Put(first, Block(0, 16));
            && EmptyOffset([], 64) == Some(0) && FirstFit(first, 64, 16, Some(0))
            && second == [Block(0, 16)] && Has(second, 0) && Erase(second, 0) == []
  {
    assert Position([], 0) == 0 && Put([], Block(0, 0)) == [Block(0, 0)];
    PositionIs([Block(0, 0)], 0, 0);
    PositionIs([Block(0, 16)], 0, 0);
  }

  // ----- runs -----

  /** The memory of a run: the blocks, the bytes, and which bytes ever belonged to a block. */
  datatype Memory = Memory(blocks: seq<Block>, data: bytes, touched: iset<nat>)

  datatype Op = Malloc(size: nat, r: Option<nat>) | Free(at: nat) | Store(at: nat, i: nat, b: byte)

  function Start(data: bytes): Memory {
    Memory([], data, iset{})
  }

  ghost predicate Covered(blocks: seq<Block>, x: nat) {
    exists i :: 0 <= i < |blocks| && Within(blocks[i], x)
  }

  predicate Within(b: Block, x: nat) {
    b.at <= x < b.at + b.size
  }

  ghost function Range(b: Block): iset<nat> {
    iset x: nat | Within(b, x)
  }

  /** One call, or a store by the owner of a live block into that block. */
  ghost predicate StepTo(m: Memory, op: Op, m': Memory) {
    match op
    case Malloc(size, r) =>
      && size > 0 && FirstFit(m.blocks, |m.data|, size, r)
      && m' == if r.None? then m
               else Memory(Put(m.blocks, Block(r.value, size)), m.data,
                           m.touched + Range(Block(r.value, size)))
    case Free(at) =>
      if !Has(m.blocks, at) then m' == m
      else
        var b := m.blocks[Position(m.blocks, at)];
        b.at + b.size <= |m.data| && m' == Memory(Erase(m.blocks, at), Zeroed(m.data, at, b.size), m.touched)
    case Store(at, i, b) =>
      && Has(m.blocks, at) && i < m.blocks[Position(m.blocks, at)].size && at + i < |m.data|
      && m' == m.(data := m.data[at + i := b])
  }

  ghost predicate RunOf(states: seq<Memory>, ops: seq<Op>) {
    && |states| == |ops| + 1 && (exists data :: states[0] == Start(data))
    && forall k :: 0 <= k < |ops| ==> StepTo(states[k], ops[k], states[k + 1])
  }

  /** Live blocks are sound, and a byte that was ever in a block and is in none now is zero. */
  ghost predicate Inv(m: Memory) {
    && Sound(m.blocks, |m.data|)
    && (forall x: nat :: Covered(m.blocks, x) ==> x in m.touched)
    && (forall x: nat :: x in m.touched && !Covered(m.blocks, x) ==> x < |m.data| && m.data[x] == 0)
  }

  lemma CoveredPut(blocks: seq<Block>, b: Block, x: nat)
    requires !Has(blocks, b.at)
    ensures Covered(Put(blocks, b), x) <==> Covered(blocks, x) || Within(b, x)
  {
    var p, put := Position(blocks, b.at), Put(blocks, b);
    assert put[p] == b;
    if i :| 0 <= i < |blocks| && Within(blocks[i], x) {
      assert put[if i < p then i else i + 1] == blocks[i];
    }
  }

  lemma MallocKeeps(m: Memory, size: nat, r: Option<nat>, m': Memory)
    requires Inv(m) && StepTo(m, Malloc(size, r), m')
    ensures Inv(m')
  {
    hide Put, Covered, Position, Has;
    if r.Some? {
      var b := Block(r.value, size);
      PutSound(m.blocks, b, |m.data|);
      forall x: nat ensures Covered(m'.blocks, x) <==> Covered(m.blocks, x) || Within(b, x) {
        CoveredPut(m.blocks, b, x);
      }
    }
  }

  lemma FreeKeeps(m: Memory, at: nat, m': Memory)
    requires Inv(m) && StepTo(m, Free(at), m')
    ensures Inv(m')
  {
    hide Put, Covered, Position, Has, Erase;
    if Has(m.blocks, at) {
      BlockAt(m.blocks, at);
      var b := m.blocks[Position(m.blocks, at)];
      EraseSound(m.blocks, at, |m.data|);
      forall x: nat ensures Covered(m.blocks, x) <==> Covered(m'.blocks, x) || Within(b, x) {
        CoveredPut(m'.blocks, b, x);
      }
    }
  }

  lemma BlockAt(blocks: seq<Block>, at: nat)
    requires Has(blocks, at)
    ensures Position(blocks, at) < |blocks| && blocks[Position(blocks, at)].at == at
  {}

  lemma StoreKeeps(m: Memory, at: nat, i: nat, b: byte, m': Memory)
    requires Inv(m) && StepTo(m, Store(at, i, b), m')
    ensures Inv(m')
  {
    var p := Position(m.blocks, at);
    assert Within(m.blocks[p], at + i);
    assert Covered(m.blocks, at + i);
  }

  /** In every run of allocations of more than nothing, frees and stores: the live blocks are in
      bounds and disjoint, what they use is at most what is locked, and freed memory holds zeros. */
  lemma {:induction false} RunIsSafe(states: seq<Memory>, ops: seq<Op>, k: nat)
    requires RunOf(states, ops) && k < |states|
    ensures Inv(states[k]) && Sum(states[k].blocks) <= |states[k].data| == |states[0].data|
    decreases k
  {
    hide Inv, StepTo, Sum;
    if k == 0 {
      StartIsSafe(states[0]);
    } else {
      RunIsSafe(states, ops, k - 1);
      assert StepTo(states[k - 1], ops[k - 1], states[k]);
      StepKeeps(states[k - 1], ops[k - 1], states[k]);
    }
  }

  lemma StartIsSafe(m: Memory)
    requires exists data :: m == Start(data)
    ensures Inv(m) && Sum(m.blocks) <= |m.data|
  {}

  lemma StepKeeps(m: Memory, op: Op, m': Memory)
    requires Inv(m) && StepTo(m, op, m')
    ensures Inv(m') && |m'.data| == |m.data| && Sum(m'.blocks) <= |m'.data|
  {
    match op {
      case Malloc(size, r) => MallocKeeps(m, size, r, m');
      case Free(at) => FreeKeeps(m, at, m');
      case Store(at, i, b) => StoreKeeps(m, at, i, b, m');
    }
    SumBound(m'.blocks, |m'.data|);
  }

  /** A call or store that is not about a live block leaves the block and its bytes alone. */
  lemma OthersUntouched(m: Memory, op: Op, m': Memory, j: nat)
    requires Inv(m) && StepTo(m, op, m') && j < |m.blocks|
    requires op.Malloc? || op.at != m.blocks[j].at
    ensures var b := m.blocks[j];
            b in m'.blocks && b.at + b.size <= |m.data| == |m'.data|
            && m'.data[b.at..b.at + b.size] == m.data[b.at..b.at + b.size]
  {
    hide Fits, Covered, Position, Has, Put, Erase;
    var b := m.blocks[j];
    match op
    case Malloc(size, r) =>
      if r.Some? {
        PutSound(m.blocks, Block(r.value, size), |m.data|);
        StaysPut(m.blocks, j, Block(r.value, size));
      }
    case Free(at) =>
      if Has(m.blocks, at) {
        StaysErased(m.blocks, j, at);
        Apart(m.blocks, |m.data|, j, at);
      }
    case Store(at, i, _) =>
      Apart(m.blocks, |m.data|, j, at);
  }

  lemma StaysPut(blocks: seq<Block>, j: nat, b: Block)
    requires j < |blocks| && !Has(blocks, b.at)
    ensures blocks[j] in Put(blocks, b)
  {
    var p := Position(blocks, b.at);
    assert Put(blocks, b)[if j < p then j else j + 1] == blocks[j];
  }

  lemma StaysErased(blocks: seq<Block>, j: nat, at: nat)
    requires j < |blocks| && Has(blocks, at) && blocks[j].at != at
    ensures blocks[j] in Erase(blocks, at)
  {
    var p := Position(blocks, at);
    assert Erase(blocks, at)[if j < p then j else j - 1] == blocks[j];
  }

  lemma Apart(blocks: seq<Block>, locked: nat, j: nat, at: nat)
    requires Sound(blocks, locked) && j < |blocks| && Has(blocks, at) && blocks[j].at != at
    ensures Position(blocks, at) < |blocks|
    ensures Clear(blocks[j], at, blocks[Position(blocks, at)].size) && blocks[Position(blocks, at)].at == at
  {
    assert j < Position(blocks, at) || Position(blocks, at) < j;
  }
}
