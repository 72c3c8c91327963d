/** The recursive-descent reader: a cursor over memory that accepts every well-formed byte form,
    fills growing arrays, and stops exactly behind the value. */
module UbjReader {
  import opened Bytes
  import opened UbjSyntax

  const NOTHING := DEmpty(NullType)

  /** Moves a full array of `size` slots into one of `n` slots. */
  method Realloc<T>(values: array<T>, size: nat, n: nat, filler: T) returns (grown: array<T>)
    requires values.Length == size <= n
    ensures fresh(grown) && grown.Length == n && grown[..size] == values[..size]
  {
    grown := new T[n](_ => filler);
    for k := 0 to size
      invariant grown[..k] == values[..k]
    {
      grown[k] := values[k];
    }
  }

  /** Makes room for one more entry: full arrays are doubled. */
  method Room(keys: array<bytes>, values: array<Dyn>, size: nat, arrpot: nat)
      returns (moreKeys: array<bytes>, moreValues: array<Dyn>, pot: nat)
    requires size <= keys.Length == values.Length == TwoTo(arrpot)
    ensures size < moreKeys.Length == moreValues.Length == TwoTo(pot)
    ensures moreKeys[..size] == keys[..size] && moreValues[..size] == values[..size]
    ensures (moreKeys == keys || fresh(moreKeys)) && (moreValues == values || fresh(moreValues))
  {
    moreKeys, moreValues, pot := keys, values, arrpot;
    if size >= TwoTo(arrpot) {
      pot := arrpot + 1;
      moreValues := Realloc(values, size, TwoTo(pot), NOTHING);
      moreKeys := Realloc(keys, size, TwoTo(pot), []);
    }
  }

  /** The slots filled so far are the keys and values of the first `n` entries. */
  ghost predicate HoldsFirst(keys: seq<bytes>, values: seq<Dyn>, elem: Type, es: seq<Entry>, n: nat) {
    && n <= |es| && WellFormedEntries(elem, es)
    && keys == Keys(es)[..n] && values == EntryMeanings(elem, es)[..n]
  }

  lemma HoldsNone(keys: seq<bytes>, values: seq<Dyn>, elem: Type, es: seq<Entry>)
    requires keys == [] && values == [] && WellFormedEntries(elem, es)
    ensures HoldsFirst(keys, values, elem, es, 0)
  {}

  lemma HoldsAll(keys: seq<bytes>, values: seq<Dyn>, elem: Type, es: seq<Entry>)
    requires HoldsFirst(keys, values, elem, es, |es|)
    ensures keys == Keys(es) && values == EntryMeanings(elem, es)
  {}

  lemma Snoc<T>(s: seq<T>, i: nat)
    requires i < |s|
    ensures s[..i + 1] == s[..i] + [s[i]]
  {}

  lemma Whole<T>(a: seq<T>, b: seq<T>, n: nat)
    requires |a| == n == |b| && a[..n] == b[..n]
    ensures a == b
  {
    assert a[..n] == a && b[..n] == b;
  }

  method TypeFromChar(c: byte) returns (t: Type, known: bool)
    ensures known ==> TagOf(t) == c
    ensures !known ==> forall u: Type :: TagOf(u) != c
  {
    var i := 0;
    while i < |TYPES| && TagOf(TYPES[i]) != c
      invariant i <= |TYPES|
      invariant forall k :: 0 <= k < i ==> TagOf(TYPES[k]) != c
    {
      i := i + 1;
    }
    known := i < |TYPES|;
    t := if known then TYPES[i] else Mixed;
    if !known {
      forall u: Type ensures TagOf(u) != c {
        EveryTypeListed(u);
        var k :| 0 <= k < |TYPES| && TYPES[k] == u;
        assert TagOf(TYPES[k]) != c;
      }
    }
  }

  lemma EveryTypeListed(u: Type)
    ensures u in TYPES
  {
    match u
    case Mixed => assert TYPES[0] == u;
    case NullType => assert TYPES[1] == u;
    case Noop => assert TYPES[2] == u;
    case BoolTrue => assert TYPES[3] == u;
    case BoolFalse => assert TYPES[4] == u;
    case Char => assert TYPES[5] == u;
    case String => assert TYPES[6] == u;
    case HighPrecision => assert TYPES[7] == u;
    case Int8 => assert TYPES[8] == u;
    case UInt8 => assert TYPES[9] == u;
    case Int16 => assert TYPES[10] == u;
    case Int32 => assert TYPES[11] == u;
    case Int64 => assert TYPES[12] == u;
    case Float32 => assert TYPES[13] == u;
    case Float64 => assert TYPES[14] == u;
    case Array => assert TYPES[15] == u;
    case Object => assert TYPES[16] == u;
  }

  lemma TagInjective(t: Type, u: Type)
    requires TagOf(t) == TagOf(u)
    ensures t == u
  {}

  lemma TagsAreNotMarks(t: Type)
    ensures TagOf(t) !in {TYPE_MARK, COUNT_MARK, CLOSE_ARRAY, CLOSE_OBJECT}
  {}

  // ----- one step of a container's bytes -----

  lemma NextElement(elem: Type, ws: seq<Wire>, i: nat)
    requires WellFormedElems(elem, ws) && i < |ws|
    ensures Elems(elem, ws[i..]) == Element(elem, ws[i]) + Elems(elem, ws[i + 1..])
  {
    assert ws[i..][0] == ws[i] && ws[i..][1..] == ws[i + 1..];
  }

  /** An entry is an untagged string followed by the value. */
  lemma NextEntry(elem: Type, es: seq<Entry>, i: nat)
    requires WellFormedEntries(elem, es) && i < |es|
    ensures WellFormed(KeySyntax(es[i]))
    ensures Entries(elem, es[i..])
         == Element(String, KeySyntax(es[i])) + (Element(elem, es[i].value) + Entries(elem, es[i + 1..]))
    ensures Entries(elem, es[i..]) != [] && Entries(elem, es[i..])[0] == TagOf(es[i].len.t)
  {
    hide Element, Payload, WellFormed, IntBytes;
    KeyBytes(es[i]);
    assert es[i..][0] == es[i] && es[i..][1..] == es[i + 1..];
  }

  lemma KeyBytes(e: Entry)
    requires ValidNum(e.len) && e.len.n == |e.key|
    ensures WellFormed(KeySyntax(e)) && Element(String, KeySyntax(e)) == TaggedNum(e.len) + e.key
  {
    assert Payload(KeySyntax(e)) == TaggedNum(e.len) + e.key;
  }

  lemma NoElements(elem: Type, ws: seq<Wire>)
    requires ws == []
    ensures WellFormedElems(elem, ws) && Elems(elem, ws) == []
  {}

  lemma NoEntries(elem: Type, es: seq<Entry>)
    requires es == []
    ensures WellFormedEntries(elem, es) && Entries(elem, es) == []
  {}

  function KeySyntax(e: Entry): Wire {
    WStr(String, e.len, e.key)
  }

  predicate StringLike(t: Type) {
    t.String? || t.HighPrecision?
  }

  class Context {
    const data: bytes
    var pos: nat

    ghost predicate Valid()
      reads this
    {
      pos <= |data|
    }

    ghost function Rest(): bytes
      requires Valid()
      reads this
    {
      data[pos..]
    }

    constructor (data: bytes)
      ensures Valid() && Rest() == data && this.data == data
    {
      this.data := data;
      pos := 0;
      new;
      assert data[0..] == data;
    }

    method Getc() returns (a: byte)
      requires Valid() && Rest() != []
      modifies this
      ensures Valid() && pos == old(pos) + 1
      ensures a == old(Rest())[0] && Rest() == old(Rest())[1..]
    {
      a := data[pos];
      pos := pos + 1;
    }

    /** Reads `n` bytes, or what is left. */
    method Read(n: nat) returns (s: bytes)
      requires Valid()
      modifies this
      ensures Valid() && pos >= old(pos)
      ensures if n <= |old(Rest())| then s == old(Rest())[..n] && Rest() == old(Rest())[n..]
              else s == old(Rest()) && Rest() == []
    {
      var lim := |data| - pos;
      var count := if lim < n then lim else n;
      s := data[pos..pos + count];
      pos := pos + count;
    }

    method Read1() returns (v: nat)
      requires Valid() && |Rest()| >= 1
      modifies this
      ensures Valid() && pos == old(pos) + 1
      ensures v == old(Rest())[0] as int && Rest() == old(Rest())[1..]
    {
      var a := Getc();
      v := a as int;
    }

    method Read2() returns (v: uint16)
      requires Valid() && |Rest()| >= 2
      modifies this
      ensures Valid() && pos == old(pos) + 2
      ensures v == Value16(old(Rest())[..2]) && Rest() == old(Rest())[2..]
    {
      var hi := Read1();
      var lo := Read1();
      v := hi * 256 + lo;
    }

    method Read4() returns (v: uint32)
      requires Valid() && |Rest()| >= 4
      modifies this
      ensures Valid() && pos == old(pos) + 4
      ensures v == Value32(old(Rest())[..4]) && Rest() == old(Rest())[4..]
    {
      ghost var s := Rest();
      var hi := Read2();
      var lo := Read2();
      v := hi * TWO_16 + lo;
      assert s[..4][..2] == s[..2] && s[..4][2..] == s[2..][..2];
    }

    method Read8() returns (v: uint64)
      requires Valid() && |Rest()| >= 8
      modifies this
      ensures Valid() && pos == old(pos) + 8
      ensures v == Value64(old(Rest())[..8]) && Rest() == old(Rest())[8..]
    {
      ghost var s := Rest();
      var hi := Read4();
      var lo := Read4();
      v := hi * TWO_32 + lo;
      assert s[..8][..4] == s[..4] && s[..8][4..] == s[4..][..4];
    }

    /** A fixed-width number of an integer or float type. */
    method ReadNumber(t: Type, ghost w: Wire, ghost rest: bytes) returns (d: Dyn)
      requires IsInteger(t) || t.Float32? || t.Float64?
      requires Valid() && WellFormed(w) && Kind(w) == t && Rest() == Payload(w) + rest
      modifies this
      ensures Valid() && pos >= old(pos) && d == Meaning(w) && Rest() == rest
    {
      assert IsInteger(t) <==> w.WInt?;
      ghost var payload := Payload(w);
      assert Rest()[..|payload|] == payload && Rest()[|payload|..] == rest;
      if w.WInt? { IntRoundTrip(t, w.num.n); }
      if t.Int8? {
        var v := Read1();
        d := DInt(t, Signed(v, 256));
      } else if t.UInt8? {
        var v := Read1();
        d := DInt(t, v);
      } else if t.Int16? {
        var v := Read2();
        d := DInt(t, Signed(v, TWO_16));
      } else if t.Int32? || t.Float32? {
        var v := Read4();
        if w.WReal? { BigEndian32RoundTrip(w.bits); }
        d := if t.Int32? then DInt(t, Signed(v, TWO_32)) else DReal(t, v);
      } else {
        var v := Read8();
        if w.WReal? { BigEndian64RoundTrip(w.bits); }
        d := if t.Int64? then DInt(t, Signed(v, TWO_64)) else DReal(t, v);
      }
    }

    /** A length or count: any dynamic value whose type is an integer type. */
    method ReadInteger(ghost num: Num, ghost rest: bytes) returns (n: int)
      requires Valid() && ValidNum(num) && Rest() == TaggedNum(num) + rest
      modifies this
      ensures Valid() && pos > old(pos) && n == num.n && Rest() == rest
      decreases |data| - pos, 4
    {
      TaggedInteger(num);
      var d := ReadDynamic(WInt(num), rest);
      n := if d.DInt? then d.n else 0;
    }

    method ReadDynamic(ghost w: Wire, ghost rest: bytes) returns (d: Dyn)
      requires Valid() && WellFormed(w) && Rest() == Tagged(w) + rest
      modifies this
      ensures Valid() && pos > old(pos) && d == Meaning(w) && Rest() == rest
      decreases |data| - pos, 2
    {
      hide Meaning, WellFormed;
      assert Rest() == [TagOf(Kind(w))] + (Payload(w) + rest);
      var c := Getc();
      var t, known := TypeFromChar(c);
      TagInjective(t, Kind(w));
      assert Element(t, w) == Payload(w) by { KindNotMixed(w); }
      d := ReadToPtr(t, w, rest);
    }

    /** Reads a value of a given type; a mixed one carries its own marker. */
    method ReadToPtr(t: Type, ghost w: Wire, ghost rest: bytes) returns (d: Dyn)
      requires Valid() && WellFormed(w) && FitsElement(t, w)
      requires Rest() == Element(t, w) + rest
      modifies this
      ensures Valid() && pos >= old(pos) && d == Meaning(w) && Rest() == rest
      decreases |data| - pos,
                if t.Array? || t.Object? then 8 else if StringLike(t) then 5 else if t.Mixed? then 3 else 0
    {
      match t
      case Mixed => d := ReadDynamic(w, rest);
      case String => d := ReadString(t, w, rest);
      case HighPrecision => d := ReadString(t, w, rest);
      case Char =>
        assert w.WChar?;
        var chars := Read(1);
        d := DStr(t, chars);
      case Array => d := ReadRawArray(w, rest);
      case Object => d := ReadRawObject(w, rest);
      case NullType => d := DEmpty(t);
      case Noop => d := DEmpty(t);
      case BoolTrue => d := DEmpty(t);
      case BoolFalse => d := DEmpty(t);
      case _ => d := ReadNumber(t, w, rest);
    }

    method ReadString(t: Type, ghost w: Wire, ghost rest: bytes) returns (d: Dyn)
      requires StringLike(t) && Valid() && WellFormed(w) && Kind(w) == t
      requires Rest() == Payload(w) + rest
      modifies this
      ensures Valid() && pos > old(pos) && d == Meaning(w) && Rest() == rest
      decreases |data| - pos, 5, 0
    {
      hide TaggedNum;
      assert w.WStr?;
      assert Rest() == TaggedNum(w.len) + (w.chars + rest);
      var n := ReadInteger(w.len, w.chars + rest);
      var chars := Read(n);
      d := DStr(t, chars);
    }

    /** Reads the optional `$type` and `#count`; without a count the size is zero. */
    method ReadContainerParams(ghost h: Header, ghost rest: bytes) returns (elem: Type, size: int)
      requires Valid() && ValidHeader(h) && Rest() == HeaderBytes(h) + rest
      requires h.count.None? ==> rest != [] && rest[0] != TYPE_MARK && rest[0] != COUNT_MARK
      modifies this
      ensures Valid() && pos >= old(pos) && Rest() == rest
      ensures HeaderBytes(h) != [] ==> pos > old(pos)
      ensures elem == h.elem && size == if h.count.Some? then h.count.value.n else 0
      decreases |data| - pos, 6
    {
      hide TaggedNum, TagOf;
      elem := Mixed;
      if data[pos] == TYPE_MARK {
        var _ := Getc();
        var c := Getc();
        var t, known := TypeFromChar(c);
        elem := t;
        assert elem == h.elem by { TagInjective(t, h.elem); }
      }
      size := 0;
      if data[pos] == COUNT_MARK {
        var _ := Getc();
        size := ReadInteger(h.count.value, rest);
      }
    }

    method ReadRawArray(ghost w: Wire, ghost rest: bytes) returns (d: Dyn)
      requires Valid() && WellFormed(w) && (w.WArr? || w.WRaw?) && Rest() == Payload(w) + rest
      modifies this
      ensures Valid() && pos >= old(pos) && d == Meaning(w) && Rest() == rest
      decreases |data| - pos, 7
    {
      hide HeaderBytes, Elems, Meanings, HostOrder;
      ghost var body := ArrayBody(w, rest);
      ArrayBodyFacts(w, rest);
      var elem, size := ReadContainerParams(w.h, body);
      if size == 0 {
        // an N-dimensional header would be looked for here
        d := ReadOpenElems(elem, w.elems, rest);
      } else if !StringLike(elem) && !elem.Char? && !elem.Mixed? {
        d := ReadBulk(elem, size, w.data, rest);
      } else {
        d := ReadSizedElems(elem, size, w.elems, rest);
      }
    }

    /** The values of a fixed-size type: one read, then one swap into host order. */
    method ReadBulk(elem: Type, size: nat, ghost raw: bytes, ghost rest: bytes) returns (d: Dyn)
      requires Valid() && IsFixedSize(elem) && |raw| == TypeSize(elem) * size && Rest() == raw + rest
      modifies this
      ensures Valid() && pos >= old(pos) && Rest() == rest
      ensures d == DRaw(elem, size, HostOrder(elem, raw))
    {
      var sz := TypeSize(elem);
      var chunk := Read(sz * size);
      assert chunk == raw;
      var values := new byte[|chunk|](i requires 0 <= i < |chunk| => chunk[i]);
      assert values[..] == chunk && values[..sz * size] == chunk && values[sz * size..] == [];
      BufEndianSwap(values, sz, size);
      d := DRaw(elem, size, values[..]);
    }

    /** The cursor stands before element `i` of an array, and `after` follows the last one. */
    ghost predicate AtElem(elem: Type, ws: seq<Wire>, i: nat, after: bytes)
      reads this
    {
      Valid() && WellFormedElems(elem, ws) && i <= |ws| && Rest() == Elems(elem, ws[i..]) + after
    }

    /** Before the closing marker of an open array, a peek tells whether an element is left. */
    lemma PeekElem(elem: Type, ws: seq<Wire>, i: nat, after: bytes)
      requires AtElem(elem, ws, i, after) && (elem.Mixed? || ws == [])
      requires after != [] && after[0] == CLOSE_ARRAY
      ensures pos < |data| && (data[pos] == CLOSE_ARRAY <==> i == |ws|)
      ensures i == |ws| ==> Rest() == after
    {
      ElemsOpen(elem, ws, i, after);
      assert data[pos] == Rest()[0];
    }

    /** Reads element `i` into its slot. */
    method ReadElemTo(values: array<Dyn>, i: nat, elem: Type, ghost ws: seq<Wire>, ghost after: bytes)
      requires AtElem(elem, ws, i, after) && i < |ws| && i < values.Length
      requires values[..i] == Meanings(elem, ws)[..i]
      modifies this, values
      ensures AtElem(elem, ws, i + 1, after) && pos >= old(pos)
      ensures values[..i + 1] == Meanings(elem, ws)[..i + 1]
      decreases |data| - pos, if elem.Mixed? then 4 else 10
    {
      hide WellFormed, Meaning, Payload, TagOf, Elems, Element;
      NextElement(elem, ws, i);
      ghost var more := Elems(elem, ws[i + 1..]) + after;
      assert Rest() == Element(elem, ws[i]) + more;
      var v := ReadToPtr(elem, ws[i], more);
      values[i] := v;
      Snoc(Meanings(elem, ws), i);
    }

    /** Elements up to the closing marker, in an array that doubles when it is full. */
    method ReadOpenElems(elem: Type, ghost ws: seq<Wire>, ghost rest: bytes) returns (d: Dyn)
      requires Valid() && WellFormedElems(elem, ws) && (elem.Mixed? || ws == [])
      requires Rest() == Elems(elem, ws) + [CLOSE_ARRAY] + rest
      modifies this
      ensures Valid() && pos >= old(pos) && Rest() == rest
      ensures d == DArr(elem, Meanings(elem, ws))
      decreases |data| - pos, 6
    {
      ghost var after := [CLOSE_ARRAY] + rest;
      assert ws[0..] == ws && AtElem(elem, ws, 0, after);
      hide AtElem, Rest, WellFormed, WellFormedElems, Meanings, Elems;
      var arrpot, size := 0, 0;
      var values := new Dyn[1](_ => NOTHING);
      PeekElem(elem, ws, 0, after);
      while data[pos] != CLOSE_ARRAY
        invariant AtElem(elem, ws, size, after) && size <= |ws| && old(pos) <= pos < |data|
        invariant data[pos] == CLOSE_ARRAY <==> size == |ws|
        invariant fresh(values) && size <= values.Length == TwoTo(arrpot)
        invariant values[..size] == Meanings(elem, ws)[..size]
        decreases |ws| - size
      {
        if size >= TwoTo(arrpot) {
          arrpot := arrpot + 1;
          values := Realloc(values, size, TwoTo(arrpot), NOTHING);
        }
        ReadElemTo(values, size, elem, ws, after);
        size := size + 1;
        PeekElem(elem, ws, size, after);
      }
      PeekElem(elem, ws, size, after);
      Whole(values[..size], Meanings(elem, ws), size);
      var _ := Getc();
      d := DArr(elem, values[..size]);
    }

    method ReadSizedElems(elem: Type, size: nat, ghost ws: seq<Wire>, ghost rest: bytes) returns (d: Dyn)
      requires Valid() && WellFormedElems(elem, ws) && |ws| == size
      requires Rest() == Elems(elem, ws) + rest
      modifies this
      ensures Valid() && pos >= old(pos) && Rest() == rest
      ensures d == DArr(elem, Meanings(elem, ws))
      decreases |data| - pos, 11
    {
      assert ws[0..] == ws && AtElem(elem, ws, 0, rest);
      hide WellFormed, Meanings, Elems;
      var values := new Dyn[size](_ => NOTHING);
      for i := 0 to size
        invariant AtElem(elem, ws, i, rest) && pos >= old(pos)
        invariant values[..i] == Meanings(elem, ws)[..i]
      {
        ReadElemTo(values, i, elem, ws, rest);
      }
      NoElements(elem, ws[size..]);
      Whole(values[..], Meanings(elem, ws), size);
      d := DArr(elem, values[..]);
    }

    method ReadRawObject(ghost w: Wire, ghost rest: bytes) returns (d: Dyn)
      requires Valid() && WellFormed(w) && w.WObj? && Rest() == Payload(w) + rest
      modifies this
      ensures Valid() && pos >= old(pos) && d == Meaning(w) && Rest() == rest
      decreases |data| - pos, 7
    {
      hide HeaderBytes, Entries, EntryMeanings, Keys;
      ghost var body := Entries(w.h.elem, w.entries) + (if Sized(w.h) then [] else [CLOSE_OBJECT]) + rest;
      ObjectBodyFacts(w, rest);
      var elem, size := ReadContainerParams(w.h, body);
      if size == 0 {
        d := ReadOpenEntries(elem, w.entries, rest);
      } else {
        d := ReadSizedEntries(elem, size, w.entries, rest);
      }
    }

    /** The cursor stands before entry `i` of an object, and `after` follows the last one. */
    ghost predicate AtEntry(elem: Type, es: seq<Entry>, i: nat, after: bytes)
      reads this
    {
      Valid() && WellFormedEntries(elem, es) && i <= |es| && Rest() == Entries(elem, es[i..]) + after
    }

    lemma PeekEntry(elem: Type, es: seq<Entry>, i: nat, after: bytes)
      requires AtEntry(elem, es, i, after)
      requires after != [] && after[0] == CLOSE_OBJECT
      ensures pos < |data| && (data[pos] == CLOSE_OBJECT <==> i == |es|)
      ensures i == |es| ==> Rest() == after
    {
      EntriesOpen(elem, es, i, after);
      assert data[pos] == Rest()[0];
    }

    method ReadOpenEntries(elem: Type, ghost es: seq<Entry>, ghost rest: bytes) returns (d: Dyn)
      requires Valid() && WellFormedEntries(elem, es)
      requires Rest() == Entries(elem, es) + [CLOSE_OBJECT] + rest
      modifies this
      ensures Valid() && pos >= old(pos) && Rest() == rest
      ensures d == DObj(elem, Keys(es), EntryMeanings(elem, es))
      decreases |data| - pos, 6
    {
      ghost var after := [CLOSE_OBJECT] + rest;
      assert es[0..] == es;
      hide Keys, EntryMeanings, Entries;
      var keys, values := FillTable(elem, es, after);
      PeekEntry(elem, es, |es|, after);
      var _ := Getc();
      d := DObj(elem, keys, values);
    }

    /** Reads entries into growing arrays until the closing marker is next. */
    method FillTable(elem: Type, ghost es: seq<Entry>, ghost after: bytes)
        returns (keyed: seq<bytes>, valued: seq<Dyn>)
      requires AtEntry(elem, es, 0, after) && after != [] && after[0] == CLOSE_OBJECT
      modifies this
      ensures AtEntry(elem, es, |es|, after) && pos >= old(pos)
      ensures keyed == Keys(es) && valued == EntryMeanings(elem, es)
      decreases |data| - pos, 5, 3
    {
      assert TwoTo(0) == 1 && WellFormedEntries(elem, es);
      hide AtEntry, HoldsFirst, TwoTo, Valid, Rest, WellFormed, WellFormedEntries, Keys, EntryMeanings, Entries;
      var arrpot, size := 0, 0;
      var values := new Dyn[1](_ => NOTHING);
      var keys := new bytes[1](_ => []);
      HoldsNone(keys[..0], values[..0], elem, es);
      PeekEntry(elem, es, 0, after);
      while data[pos] != CLOSE_OBJECT
        invariant AtEntry(elem, es, size, after) && size <= |es| && old(pos) <= pos < |data|
        invariant data[pos] == CLOSE_OBJECT <==> size == |es|
        invariant fresh(values) && fresh(keys) && size <= keys.Length == values.Length == TwoTo(arrpot)
        invariant HoldsFirst(keys[..size], values[..size], elem, es, size)
        decreases |es| - size
      {
        keys, values, arrpot := Room(keys, values, size, arrpot);
        ReadEntryTo(keys, values, size, elem, es, after);
        size := size + 1;
        PeekEntry(elem, es, size, after);
      }
      keyed, valued := keys[..size], values[..size];
      HoldsAll(keyed, valued, elem, es);
    }

    method ReadSizedEntries(elem: Type, size: nat, ghost es: seq<Entry>, ghost rest: bytes) returns (d: Dyn)
      requires Valid() && WellFormedEntries(elem, es) && |es| == size
      requires Rest() == Entries(elem, es) + rest
      modifies this
      ensures Valid() && pos >= old(pos) && Rest() == rest
      ensures d == DObj(elem, Keys(es), EntryMeanings(elem, es))
      decreases |data| - pos, 9
    {
      assert es[0..] == es && AtEntry(elem, es, 0, rest);
      hide HoldsFirst, WellFormed, Keys, EntryMeanings, Entries;
      var values := new Dyn[size](_ => NOTHING);
      var keys := new bytes[size](_ => []);
      HoldsNone(keys[..0], values[..0], elem, es);
      for i := 0 to size
        invariant AtEntry(elem, es, i, rest) && pos >= old(pos)
        invariant HoldsFirst(keys[..i], values[..i], elem, es, i)
      {
        ReadEntryTo(keys, values, i, elem, es, rest);
      }
      NoEntries(elem, es[size..]);
      assert keys[..] == keys[..size] && values[..] == values[..size];
      HoldsAll(keys[..], values[..], elem, es);
      d := DObj(elem, keys[..], values[..]);
    }

    /** Reads entry `i` into its slots. */
    method ReadEntryTo(keys: array<bytes>, values: array<Dyn>, i: nat,
                       elem: Type, ghost es: seq<Entry>, ghost after: bytes)
      requires AtEntry(elem, es, i, after) && i < |es| && i < keys.Length && i < values.Length
      requires HoldsFirst(keys[..i], values[..i], elem, es, i)
      modifies this, keys, values
      ensures AtEntry(elem, es, i + 1, after) && pos > old(pos)
      ensures HoldsFirst(keys[..i + 1], values[..i + 1], elem, es, i + 1)
      decreases |data| - pos, 5, 2
    {
      hide WellFormed, Meaning, Entries;
      var k, v := ReadEntry(elem, es, i, after);
      keys[i] := k;
      values[i] := v;
      Snoc(Keys(es), i);
      Snoc(EntryMeanings(elem, es), i);
    }

    /** A key, read as an untagged string, and its value. */
    method ReadEntry(elem: Type, ghost es: seq<Entry>, ghost i: nat, ghost after: bytes)
        returns (key: bytes, v: Dyn)
      requires AtEntry(elem, es, i, after) && i < |es|
      modifies this
      ensures AtEntry(elem, es, i + 1, after) && pos > old(pos)
      ensures key == es[i].key && v == Meaning(es[i].value)
      decreases |data| - pos, 5, 1
    {
      hide WellFormed, Payload, Entries;
      NextEntry(elem, es, i);
      ghost var more := Entries(elem, es[i + 1..]) + after;
      ghost var valueOn := Element(elem, es[i].value) + more;
      assert Rest() == Payload(KeySyntax(es[i])) + valueOn;
      var k := ReadString(String, KeySyntax(es[i]), valueOn);
      key := k.chars;
      v := ReadToPtr(elem, es[i].value, more);
    }
  }

  /** What follows the header of an array. */
  ghost function ArrayBody(w: Wire, rest: bytes): bytes
    requires WellFormed(w) && (w.WArr? || w.WRaw?)
  {
    if w.WRaw? then w.data + rest
    else Elems(w.h.elem, w.elems) + (if Sized(w.h) then [] else [CLOSE_ARRAY]) + rest
  }

  lemma ArrayBodyFacts(w: Wire, rest: bytes)
    requires WellFormed(w) && (w.WArr? || w.WRaw?)
    ensures Payload(w) + rest == HeaderBytes(w.h) + ArrayBody(w, rest)
    ensures Sized(w.h) ==> HeaderBytes(w.h) != []
    ensures w.h.count.None? ==> var b := ArrayBody(w, rest);
              b != [] && b[0] != TYPE_MARK && b[0] != COUNT_MARK
  {
    hide Elems, WellFormedElems, TaggedNum, TagOf;
    if w.WArr? && w.h.count.None? {
      ElemsOpen(w.h.elem, w.elems, 0, [CLOSE_ARRAY] + rest);
      assert w.elems[0..] == w.elems;
    }
  }

  lemma ObjectBodyFacts(w: Wire, rest: bytes)
    requires WellFormed(w) && w.WObj?
    ensures var body := Entries(w.h.elem, w.entries) + (if Sized(w.h) then [] else [CLOSE_OBJECT]) + rest;
            && Payload(w) + rest == HeaderBytes(w.h) + body
            && (w.h.count.None? ==> body != [] && body[0] != TYPE_MARK && body[0] != COUNT_MARK)
    ensures Sized(w.h) ==> HeaderBytes(w.h) != []
  {
    hide Entries, WellFormedEntries, TaggedNum, TagOf;
    if w.h.count.None? {
      EntriesOpen(w.h.elem, w.entries, 0, [CLOSE_OBJECT] + rest);
      assert w.entries[0..] == w.entries;
    }
  }

  /** The next byte is the closing marker exactly when no element is left. */
  lemma ElemsOpen(elem: Type, ws: seq<Wire>, i: nat, after: bytes)
    requires WellFormedElems(elem, ws) && (elem.Mixed? || ws == []) && i <= |ws|
    requires after != [] && after[0] == CLOSE_ARRAY
    ensures var b := Elems(elem, ws[i..]) + after;
            b != [] && b[0] != TYPE_MARK && b[0] != COUNT_MARK && (b[0] == CLOSE_ARRAY <==> i == |ws|)
            && (i == |ws| ==> b == after)
  {
    if i < |ws| {
      NextElement(elem, ws, i);
      TagsAreNotMarks(Kind(ws[i]));
      assert Element(elem, ws[i])[0] == TagOf(Kind(ws[i]));
    }
  }

  lemma EntriesOpen(elem: Type, es: seq<Entry>, i: nat, after: bytes)
    requires WellFormedEntries(elem, es) && i <= |es|
    requires after != [] && after[0] == CLOSE_OBJECT
    ensures var b := Entries(elem, es[i..]) + after;
            b != [] && b[0] != TYPE_MARK && b[0] != COUNT_MARK && (b[0] == CLOSE_OBJECT <==> i == |es|)
            && (i == |es| ==> b == after)
  {
    if i < |es| {
      NextEntry(elem, es, i);
      TagsAreNotMarks(es[i].len.t);
    }
  }

  lemma TaggedInteger(num: Num)
    requires ValidNum(num)
    ensures TaggedNum(num) == Tagged(WInt(num))
  {
    assert Payload(WInt(num)) == IntBytes(num.t, num.n);
  }

  lemma KindNotMixed(w: Wire)
    requires WellFormed(w)
    ensures !Kind(w).Mixed?
  {}
}
