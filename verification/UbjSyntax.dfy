/** The values of the UBJ library, the byte format they are written in (UBJSON Draft 12 with
    the optimized container format), and what reading that format back means. */
module UbjSyntax {
  import opened Options
  import opened Bytes

  // ----- types and their marker characters -----

  datatype Type =
    | Mixed | NullType | Noop | BoolTrue | BoolFalse
    | Char | String | HighPrecision
    | Int8 | UInt8 | Int16 | Int32 | Int64 | Float32 | Float64
    | Array | Object

  const TYPES: seq<Type> :=
    [Mixed, NullType, Noop, BoolTrue, BoolFalse, Char, String, HighPrecision,
     Int8, UInt8, Int16, Int32, Int64, Float32, Float64, Array, Object]

  const OPEN_ARRAY: byte := 0x5B
  const CLOSE_ARRAY: byte := 0x5D
  const OPEN_OBJECT: byte := 0x7B
  const CLOSE_OBJECT: byte := 0x7D
  const TYPE_MARK: byte := 0x24
  const COUNT_MARK: byte := 0x23

  /** The marker string "\0ZNTFCSHiUIlLdD[{". */
  function TagOf(t: Type): byte {
    match t
    case Mixed => 0x00
    case NullType => 0x5A
    case Noop => 0x4E
    case BoolTrue => 0x54
    case BoolFalse => 0x46
    case Char => 0x43
    case String => 0x53
    case HighPrecision => 0x48
    case Int8 => 0x69
    case UInt8 => 0x55
    case Int16 => 0x49
    case Int32 => 0x6C
    case Int64 => 0x4C
    case Float32 => 0x64
    case Float64 => 0x44
    case Array => OPEN_ARRAY
    case Object => OPEN_OBJECT
  }

  /** Every type has the character that the format gives it, and so do containers and their headers. */
  lemma MarksAre()
    ensures [TagOf(NullType), TagOf(Noop), TagOf(BoolTrue), TagOf(BoolFalse)] == Ascii("ZNTF")
    ensures [TagOf(Char), TagOf(String), TagOf(HighPrecision)] == Ascii("CSH")
    ensures [TagOf(Int8), TagOf(UInt8), TagOf(Int16), TagOf(Int32), TagOf(Int64)] == Ascii("iUIlL")
    ensures [TagOf(Float32), TagOf(Float64), TagOf(Array), TagOf(Object)] == Ascii("dD[{") && TagOf(Mixed) == 0
    ensures [OPEN_ARRAY, CLOSE_ARRAY, OPEN_OBJECT, CLOSE_OBJECT, TYPE_MARK, COUNT_MARK] == Ascii("[]{}$#")
  {}

  predicate IsInteger(t: Type) {
    t.Int8? || t.UInt8? || t.Int16? || t.Int32? || t.Int64?
  }

  /** Types whose values occupy no payload bytes. */
  predicate IsEmptyType(t: Type) {
    t.NullType? || t.Noop? || t.BoolTrue? || t.BoolFalse?
  }

  /** Bytes per element of the types a sized typed array reads in bulk. */
  function TypeSize(t: Type): nat {
    match t
    case Int8 => 1
    case UInt8 => 1
    case Int16 => 2
    case Int32 => 4
    case Int64 => 8
    case Float32 => 4
    case Float64 => 8
    case _ => 0
  }

  predicate IsFixedSize(t: Type) {
    IsEmptyType(t) || IsInteger(t) || t.Float32? || t.Float64?
  }

  // ----- integers -----

  predicate InRange(t: Type, n: int) {
    match t
    case Int8 => -0x80 <= n < 0x80
    case UInt8 => 0 <= n < 0x100
    case Int16 => -0x8000 <= n < 0x8000
    case Int32 => -0x8000_0000 <= n < 0x8000_0000
    case Int64 => -0x8000_0000_0000_0000 <= n < 0x8000_0000_0000_0000
    case _ => false
  }

  /** The narrowest marker the writer picks for an integer. */
  function MinIntegerType(n: int64): (t: Type)
    requires n > -0x8000_0000_0000_0000
    ensures IsInteger(t) && InRange(t, n)
  {
    var magnitude := if n < 0 then -n else n;
    if magnitude < 0x80 then Int8
    else if n > 0 && magnitude < 0x100 then UInt8
    else if magnitude < 0x8000 then Int16
    else if magnitude < 0x8000_0000 then Int32
    else Int64
  }

  /** No narrower type than the one picked would do for the magnitude. */
  lemma MinIntegerTypeIs(n: int64)
    requires n > -0x8000_0000_0000_0000
    ensures MinIntegerType(n).Int8? <==> -128 < n < 128
    ensures MinIntegerType(n).UInt8? <==> 128 <= n < 256
    ensures MinIntegerType(n).Int16? <==> -32768 < n <= -128 || 256 <= n < 32768
    ensures MinIntegerType(n).Int32? <==> -2147483648 < n <= -32768 || 32768 <= n < 2147483648
    ensures MinIntegerType(n).Int64? <==> n <= -2147483648 || 2147483648 <= n
  {}

  function IntBytes(t: Type, n: int): (r: bytes)
    requires InRange(t, n)
    ensures |r| == TypeSize(t)
  {
    match t
    case Int8 => [Unsigned(n, 256) as byte]
    case UInt8 => [n as byte]
    case Int16 => BigEndian16(Unsigned(n, TWO_16))
    case Int32 => BigEndian32(Unsigned(n, TWO_32))
    case Int64 => BigEndian64(Unsigned(n, TWO_64))
  }

  /** The integer a reader makes of the payload bytes of an integer type. */
  function IntOf(t: Type, s: bytes): int
    requires IsInteger(t) && |s| == TypeSize(t)
  {
    match t
    case Int8 => Signed(s[0] as int, 256)
    case UInt8 => s[0] as int
    case Int16 => Signed(Value16(s), TWO_16)
    case Int32 => Signed(Value32(s), TWO_32)
    case Int64 => Signed(Value64(s), TWO_64)
  }

  lemma IntRoundTrip(t: Type, n: int)
    requires IsInteger(t) && InRange(t, n)
    ensures IntOf(t, IntBytes(t, n)) == n
  {
    match t
    case Int8 => SignedRoundTrip(n, 256);
    case UInt8 =>
    case Int16 => SignedRoundTrip(n, TWO_16);
    case Int32 =>
      BigEndian32RoundTrip(Unsigned(n, TWO_32));
      SignedRoundTrip(n, TWO_32);
    case Int64 =>
      BigEndian64RoundTrip(Unsigned(n, TWO_64));
      SignedRoundTrip(n, TWO_64);
  }

  function RealBytes(t: Type, bits: nat): (r: bytes)
    requires (t.Float32? && bits < TWO_32) || (t.Float64? && bits < TWO_64)
    ensures |r| == TypeSize(t)
  {
    if t.Float32? then BigEndian32(bits) else BigEndian64(bits)
  }

  // ----- concrete syntax: every well-formed byte form of a value -----

  /** An integer literal with the marker it is written under. */
  datatype Num = Num(t: Type, n: int)

  /** The `$type` and `#count` prefix of a container. */
  datatype Header = Header(elem: Type, count: Option<Num>)

  datatype Wire =
    | WEmpty(t: Type)
    | WInt(num: Num)
    | WReal(t: Type, bits: nat)
    | WStr(t: Type, len: Num, chars: bytes)
    | WChar(c: byte)
    | WArr(h: Header, elems: seq<Wire>)
    | WRaw(h: Header, data: bytes)
    | WObj(h: Header, entries: seq<Entry>)

  datatype Entry = Entry(len: Num, key: bytes, value: Wire)

  predicate ValidNum(num: Num) {
    IsInteger(num.t) && InRange(num.t, num.n)
  }

  function TaggedNum(num: Num): (r: bytes)
    requires ValidNum(num)
    ensures |r| == 1 + TypeSize(num.t)
  {
    [TagOf(num.t)] + IntBytes(num.t, num.n)
  }

  /** A container is length-prefixed when it has a count and the count is not zero;
      otherwise the reader looks for the closing marker. */
  predicate Sized(h: Header) {
    h.count.Some? && h.count.value.n != 0
  }

  predicate ValidHeader(h: Header) {
    h.count.Some? ==> ValidNum(h.count.value) && h.count.value.n >= 0
  }

  predicate HoldsElements(h: Header, n: nat) {
    ValidHeader(h) && (if Sized(h) then n == h.count.value.n else h.elem.Mixed? || n == 0)
  }

  function Kind(w: Wire): Type {
    match w
    case WEmpty(t) => t
    case WInt(num) => num.t
    case WReal(t, _) => t
    case WStr(t, _, _) => t
    case WChar(_) => Char
    case WArr(_, _) => Array
    case WRaw(_, _) => Array
    case WObj(_, _) => Object
  }

  predicate FitsElement(elem: Type, w: Wire) {
    elem.Mixed? || Kind(w) == elem
  }

  predicate WellFormed(w: Wire)
    decreases w, 0
  {
    match w
    case WEmpty(t) => IsEmptyType(t)
    case WInt(num) => ValidNum(num)
    case WReal(t, bits) => (t.Float32? && bits < TWO_32) || (t.Float64? && bits < TWO_64)
    case WStr(t, len, chars) => (t.String? || t.HighPrecision?) && ValidNum(len) && len.n == |chars|
    case WChar(_) => true
    case WArr(h, elems) =>
      && HoldsElements(h, |elems|)
      && (Sized(h) ==> h.elem.Mixed? || h.elem.String? || h.elem.HighPrecision? || h.elem.Char?)
      && WellFormedElems(h.elem, elems)
    case WRaw(h, data) =>
      ValidHeader(h) && Sized(h) && IsFixedSize(h.elem) && |data| == TypeSize(h.elem) * h.count.value.n
    case WObj(h, entries) => HoldsElements(h, |entries|) && WellFormedEntries(h.elem, entries)
  }

  predicate WellFormedElems(elem: Type, ws: seq<Wire>)
    decreases ws, 1
  {
    forall i :: 0 <= i < |ws| ==> FitsElement(elem, ws[i]) && WellFormed(ws[i])
  }

  predicate WellFormedEntries(elem: Type, es: seq<Entry>)
    decreases es, 1
  {
    forall i :: 0 <= i < |es| ==>
      && ValidNum(es[i].len) && es[i].len.n == |es[i].key|
      && FitsElement(elem, es[i].value) && WellFormed(es[i].value)
  }

  // ----- printing -----

  function HeaderBytes(h: Header): bytes
    requires ValidHeader(h)
  {
    (if h.elem.Mixed? then [] else [TYPE_MARK, TagOf(h.elem)])
    + (if h.count.None? then [] else [COUNT_MARK] + TaggedNum(h.count.value))
  }

  /** The bytes of a value whose marker is already known. */
  function Payload(w: Wire): bytes
    requires WellFormed(w)
    decreases w, 1
  {
    match w
    case WEmpty(_) => []
    case WInt(num) => IntBytes(num.t, num.n)
    case WReal(t, bits) => RealBytes(t, bits)
    case WStr(_, len, chars) => TaggedNum(len) + chars
    case WChar(c) => [c]
    case WArr(h, elems) =>
      HeaderBytes(h) + Elems(h.elem, elems) + (if Sized(h) then [] else [CLOSE_ARRAY])
    case WRaw(h, data) => HeaderBytes(h) + data
    case WObj(h, entries) =>
      HeaderBytes(h) + Entries(h.elem, entries) + (if Sized(h) then [] else [CLOSE_OBJECT])
  }

  /** An element of a container: its marker is left out when the container gives the type. */
  function Element(elem: Type, w: Wire): bytes
    requires WellFormed(w)
    decreases w, 2
  {
    (if elem.Mixed? then [TagOf(Kind(w))] else []) + Payload(w)
  }

  function Tagged(w: Wire): bytes
    requires WellFormed(w)
  {
    Element(Mixed, w)
  }

  function Elems(elem: Type, ws: seq<Wire>): bytes
    requires WellFormedElems(elem, ws)
    decreases ws, 3
  {
    if ws == [] then [] else Element(elem, ws[0]) + Elems(elem, ws[1..])
  }

  function EntryBytes(elem: Type, e: Entry): bytes
    requires ValidNum(e.len) && WellFormed(e.value)
    decreases e, 3
  {
    TaggedNum(e.len) + e.key + Element(elem, e.value)
  }

  function Entries(elem: Type, es: seq<Entry>): bytes
    requires WellFormedEntries(elem, es)
    decreases es, 4
  {
    if es == [] then [] else EntryBytes(elem, es[0]) + Entries(elem, es[1..])
  }

  // ----- what a reader makes of the syntax -----

  /** The reader's dynamic values. Bulk-read arrays hold their elements in host byte order. */
  datatype Dyn =
    | DEmpty(t: Type)
    | DInt(t: Type, n: int)
    | DReal(t: Type, bits: nat)
    | DStr(t: Type, chars: bytes)
    | DArr(elem: Type, elems: seq<Dyn>)
    | DRaw(elem: Type, count: nat, memory: bytes)
    | DObj(elem: Type, keys: seq<bytes>, values: seq<Dyn>)

  function HostOrder(t: Type, data: bytes): bytes {
    if TypeSize(t) == 0 then data else SwapElements(data, TypeSize(t))
  }

  /** In memory the bytes of every element lie in reverse, lowest first. */
  lemma HostOrderIs(t: Type, data: bytes, at: nat, k: nat)
    requires IsInteger(t) || t.Float32? || t.Float64?
    requires Boundary(at, TypeSize(t)) && at + TypeSize(t) <= |data| && k < TypeSize(t)
    ensures |HostOrder(t, data)| == |data| && HostOrder(t, data)[at + k] == data[at + TypeSize(t) - 1 - k]
    ensures TypeSize(t) == if t.Int8? || t.UInt8? then 1 else if t.Int16? then 2
                           else if t.Int32? || t.Float32? then 4 else 8
  {
    SwapAt(data, TypeSize(t), at, k);
  }

  function Meaning(w: Wire): Dyn
    requires WellFormed(w)
    decreases w, 1
  {
    match w
    case WEmpty(t) => DEmpty(t)
    case WInt(num) => DInt(num.t, num.n)
    case WReal(t, bits) => DReal(t, bits)
    case WStr(t, _, chars) => DStr(t, chars)
    case WChar(c) => DStr(Char, [c])
    case WArr(h, elems) => DArr(h.elem, Meanings(h.elem, elems))
    case WRaw(h, data) => DRaw(h.elem, h.count.value.n, HostOrder(h.elem, data))
    case WObj(h, entries) => DObj(h.elem, Keys(entries), EntryMeanings(h.elem, entries))
  }

  function Meanings(elem: Type, ws: seq<Wire>): (r: seq<Dyn>)
    requires WellFormedElems(elem, ws)
    ensures |r| == |ws|
    ensures forall i :: 0 <= i < |ws| ==> r[i] == Meaning(ws[i])
    decreases ws, 2
  {
    if ws == [] then [] else [Meaning(ws[0])] + Meanings(elem, ws[1..])
  }

  function Keys(es: seq<Entry>): (r: seq<bytes>)
    ensures |r| == |es|
    ensures forall i :: 0 <= i < |es| ==> r[i] == es[i].key
  {
    if es == [] then [] else [es[0].key] + Keys(es[1..])
  }

  function EntryMeanings(elem: Type, es: seq<Entry>): (r: seq<Dyn>)
    requires WellFormedEntries(elem, es)
    ensures |r| == |es|
    ensures forall i :: 0 <= i < |es| ==> r[i] == Meaning(es[i].value)
    decreases es, 2
  {
    if es == [] then [] else [Meaning(es[0].value)] + EntryMeanings(elem, es[1..])
  }
}
