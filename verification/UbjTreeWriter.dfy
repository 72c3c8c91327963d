/** The recursion that drives the streaming writer over a value tree. */
module UbjTreeWriter {
  import opened Options
  import opened Bytes
  import opened UbjSyntax
  import opened UbjDraft
  import opened UbjValue
  import opened UbjWriter

  /** The slots below the current one are as they were. */
  twostate predicate EnclosingKept(ctx: Context)
    requires old(ctx.Valid()) && ctx.Valid()
    reads ctx, ctx.stack
  {
    ctx.head == old(ctx.head) && forall k :: 0 <= k < ctx.head ==> ctx.stack[k] == old(ctx.stack[k])
  }

  /** What a finished value leaves behind: the current slot has received one element. */
  twostate predicate WroteOne(ctx: Context)
    requires old(ctx.Valid()) && ctx.Valid()
    reads ctx, ctx.stack
  {
    && ctx.Ready() && EnclosingKept(ctx)
    && ctx.stack[ctx.head] == AfterElement(old(ctx.stack[ctx.head]))
  }

  /** A container is left with every announced element written and no value owed to a key. */
  predicate Complete(closed: Container) {
    closed.remaining == 0 && closed.expectsKey == closed.isObject
  }

  function KeyBytes(key: bytes): bytes
    requires |key| < TWO_32
  {
    if key == [] then [] else TaggedNum(MinNum(|key|)) + key
  }

  function Slot(isObject: bool, n: nat, i: nat): Container
    requires i <= n < TWO_32
  {
    Opened(isObject, Mixed, n).(remaining := n - i)
  }

  // ----- the shape of each encoding, one case at a time -----

  lemma ClosingIs(n: nat)
    requires n < TWO_32
    ensures MixedHeader(n).elem == Mixed
    ensures Closing(Opened(true, Mixed, n)) == if Sized(MixedHeader(n)) then [] else [CLOSE_OBJECT]
    ensures Closing(Opened(false, Mixed, n)) == if Sized(MixedHeader(n)) then [] else [CLOSE_ARRAY]
  {}

  lemma ContainerSyntax(v: Value)
    requires Writable(v)
    ensures v.Obj? ==> WellFormed(WObj(MixedHeader(|v.fields|), FieldsSyntax(v.fields)))
    ensures v.Arr? ==> WellFormed(WArr(MixedHeader(|v.items|), ItemsSyntax(v.items)))
    ensures v.Obj? ==> Encode(v) == Tagged(WObj(MixedHeader(|v.fields|), FieldsSyntax(v.fields)))
    ensures v.Arr? ==> Encode(v) == Tagged(WArr(MixedHeader(|v.items|), ItemsSyntax(v.items)))
  {
    hide Tagged, FieldsSyntax, ItemsSyntax;
  }

  lemma ObjectShape(fields: seq<Field>)
    requires Writable(Obj(fields))
    ensures Encode(Obj(fields)) == [OPEN_OBJECT] + HeaderBytes(MixedHeader(|fields|))
                                 + Entries(Mixed, FieldsSyntax(fields)) + Closing(Opened(true, Mixed, |fields|))
  {
    ContainerSyntax(Obj(fields));
    ClosingIs(|fields|);
    hide HeaderBytes, Entries, FieldsSyntax, WellFormedEntries, Encode, Tagged, Payload, Element;
    hide MixedHeader, Closing, Opened, Sized;
    PrintObject(MixedHeader(|fields|), FieldsSyntax(fields));
  }

  lemma PrintObject(h: Header, es: seq<Entry>)
    requires WellFormed(WObj(h, es))
    ensures Tagged(WObj(h, es)) == [OPEN_OBJECT] + HeaderBytes(h) + Entries(h.elem, es)
                                 + (if Sized(h) then [] else [CLOSE_OBJECT])
  {
    hide HeaderBytes, Entries, WellFormedEntries;
    assert Tagged(WObj(h, es)) == [OPEN_OBJECT] + Payload(WObj(h, es));
  }

  lemma ArrayShape(items: seq<Value>)
    requires Writable(Arr(items))
    ensures Encode(Arr(items)) == [OPEN_ARRAY] + HeaderBytes(MixedHeader(|items|))
                                + Elems(Mixed, ItemsSyntax(items)) + Closing(Opened(false, Mixed, |items|))
  {
    ContainerSyntax(Arr(items));
    ClosingIs(|items|);
    hide HeaderBytes, Elems, ItemsSyntax, WellFormedElems, Encode, Tagged, Payload, Element;
    hide MixedHeader, Closing, Opened, Sized;
    PrintArray(MixedHeader(|items|), ItemsSyntax(items));
  }

  lemma PrintArray(h: Header, ws: seq<Wire>)
    requires WellFormed(WArr(h, ws))
    ensures Tagged(WArr(h, ws)) == [OPEN_ARRAY] + HeaderBytes(h) + Elems(h.elem, ws)
                                 + (if Sized(h) then [] else [CLOSE_ARRAY])
  {
    hide HeaderBytes, Elems, WellFormedElems;
    assert Tagged(WArr(h, ws)) == [OPEN_ARRAY] + Payload(WArr(h, ws));
  }

  lemma BufferShape(data: bytes)
    requires Writable(Buf(data))
    ensures Encode(Buf(data)) == if data == [] then Encode(Arr([]))
              else [OPEN_ARRAY] + HeaderBytes(Header(Int8, Some(MinNum(|data|)))) + data
  {
    var w := Syntax(Buf(data));
    if data == [] {
      assert w == Syntax(Arr([]));
    } else {
      assert Tagged(w) == [OPEN_ARRAY] + Payload(w);
    }
  }

  lemma EntryStep(fields: seq<Field>, i: nat)
    requires WritableFields(fields) && i < |fields|
    ensures var es := FieldsSyntax(fields);
            Entries(Mixed, es[i..])
            == KeyBytes(fields[i].key) + Encode(fields[i].value) + Entries(Mixed, es[i + 1..])
  {
    FieldsSyntaxAt(fields);
    var es := FieldsSyntax(fields);
    assert es[i..][0] == FieldSyntax(fields[i]) && es[i..][1..] == es[i + 1..];
  }

  lemma ElemStep(items: seq<Value>, i: nat)
    requires WritableItems(items) && i < |items|
    ensures var ws := ItemsSyntax(items);
            Elems(Mixed, ws[i..]) == Encode(items[i]) + Elems(Mixed, ws[i + 1..])
  {
    ItemsSyntaxAt(items);
    var ws := ItemsSyntax(items);
    assert ws[i..][0] == Syntax(items[i]) && ws[i..][1..] == ws[i + 1..];
  }

  lemma {:induction false} ItemsSyntaxAt(items: seq<Value>)
    requires WritableItems(items)
    ensures forall i :: 0 <= i < |items| ==> ItemsSyntax(items)[i] == Syntax(items[i])
    decreases |items|
  {
    if items != [] {
      ItemsSyntaxAt(items[1..]);
    }
  }

  // ----- the recursion -----

  method WriteFields(ctx: Context, fields: seq<Field>)
    requires |fields| < TWO_32 && ctx.Ready() && ctx.stack[ctx.head] == Slot(true, |fields|, 0)
    requires WritableFields(fields) && ctx.head + FieldsDepth(fields) < CONTAINER_STACK_MAX
    modifies ctx, ctx.stack
    ensures ctx.Ready() && EnclosingKept(ctx)
    ensures ctx.stack[ctx.head] == Slot(true, |fields|, |fields|)
    ensures ctx.output == old(ctx.output) + Entries(Mixed, FieldsSyntax(fields))
    decreases fields, 2
  {
    hide FieldsSyntax, Syntax, Encode, Payload, Element, Elems, WellFormed, EntryBytes, Tagged;
    hide HeaderBytes, TaggedNum, Depth;
    ghost var es := FieldsSyntax(fields);
    assert es[0..] == es;
    for i := 0 to |fields|
      invariant ctx.Ready() && EnclosingKept(ctx)
      invariant ctx.stack[ctx.head] == Slot(true, |fields|, i)
      invariant ctx.output + Entries(Mixed, es[i..]) == old(ctx.output) + Entries(Mixed, es)
    {
      EntryStep(fields, i);
      ghost var before := ctx.output;
      WriteValue(ctx, fields[i].key, fields[i].value);
      Regroup(before, KeyBytes(fields[i].key), Encode(fields[i].value), Entries(Mixed, es[i + 1..]));
    }
    assert es[|fields|..] == [];
  }

  method WriteItems(ctx: Context, items: seq<Value>)
    requires |items| < TWO_32 && ctx.Ready() && ctx.stack[ctx.head] == Slot(false, |items|, 0)
    requires WritableItems(items) && ctx.head + ItemsDepth(items) < CONTAINER_STACK_MAX
    modifies ctx, ctx.stack
    ensures ctx.Ready() && EnclosingKept(ctx)
    ensures ctx.stack[ctx.head] == Slot(false, |items|, |items|)
    ensures ctx.output == old(ctx.output) + Elems(Mixed, ItemsSyntax(items))
    decreases items, 2
  {
    hide ItemsSyntax, Syntax, Encode, Payload, Element, Entries, WellFormed, Tagged, HeaderBytes, TaggedNum, Depth;
    ghost var ws := ItemsSyntax(items);
    assert ws[0..] == ws;
    for i := 0 to |items|
      invariant ctx.Ready() && EnclosingKept(ctx)
      invariant ctx.stack[ctx.head] == Slot(false, |items|, i)
      invariant ctx.output + Elems(Mixed, ws[i..]) == old(ctx.output) + Elems(Mixed, ws)
    {
      ElemStep(items, i);
      ghost var before := ctx.output;
      WriteValue(ctx, [], items[i]);
      Regroup(before, [], Encode(items[i]), Elems(Mixed, ws[i + 1..]));
    }
    assert ws[|items|..] == [];
  }

  lemma Regroup(a: bytes, b: bytes, c: bytes, d: bytes)
    ensures a + b + c + d == a + (b + c + d)
  {}

  method WriteObject(ctx: Context, fields: seq<Field>) returns (closed: Container)
    requires ctx.Ready() && TakesValue(ctx.stack[ctx.head])
    requires Writable(Obj(fields)) && ctx.head + Depth(Obj(fields)) < CONTAINER_STACK_MAX
    modifies ctx, ctx.stack
    ensures ctx.Ready() && WroteOne(ctx) && Complete(closed)
    ensures ctx.output == old(ctx.output) + Encode(Obj(fields))
    decreases fields, 3
  {
    hide FieldsSyntax, Syntax, Encode, Entries, WellFormed, HeaderBytes;
    ctx.Begin(true, Mixed, |fields|);
    WriteFields(ctx, fields);
    closed := ctx.End();
    ObjectShape(fields);
  }

  method WriteArray(ctx: Context, items: seq<Value>) returns (closed: Container)
    requires ctx.Ready() && TakesValue(ctx.stack[ctx.head])
    requires Writable(Arr(items)) && ctx.head + Depth(Arr(items)) < CONTAINER_STACK_MAX
    modifies ctx, ctx.stack
    ensures ctx.Ready() && WroteOne(ctx) && Complete(closed)
    ensures ctx.output == old(ctx.output) + Encode(Arr(items))
    decreases items, 3
  {
    hide ItemsSyntax, Syntax, Encode, Elems, WellFormed, HeaderBytes;
    ctx.Begin(false, Mixed, |items|);
    WriteItems(ctx, items);
    closed := ctx.End();
    ArrayShape(items);
  }

  lemma BytesInHostOrder(data: bytes)
    ensures HostOrder(Int8, data) == data
  {
    SwapSize1(data);
  }

  /** A value that holds a byte buffer: an empty one is written as an empty array. */
  method WriteByteBuffer(ctx: Context, data: bytes)
    requires ctx.Ready() && TakesValue(ctx.stack[ctx.head])
    requires Writable(Buf(data)) && ctx.head + 1 < CONTAINER_STACK_MAX
    modifies ctx, ctx.stack
    ensures ctx.Ready() && WroteOne(ctx)
    ensures ctx.output == old(ctx.output) + Encode(Buf(data))
    decreases data, 4
  {
    hide Syntax, Encode, HeaderBytes, WellFormed, HostOrder, SwapElements;
    BufferShape(data);
    if data == [] {
      var _ := WriteArray(ctx, []);
    } else {
      BytesInHostOrder(data);
      var _ := ctx.WriteBuffer(Int8, data, |data|);
    }
  }

  method WriteValue(ctx: Context, key: bytes, v: Value)
    requires ctx.Ready() && !ctx.stack[ctx.head].typed
    requires ctx.stack[ctx.head].isObject == ctx.stack[ctx.head].expectsKey == (key != [])
    requires |key| < TWO_32 && 0 !in key
    requires Writable(v) && ctx.head + Depth(v) < CONTAINER_STACK_MAX
    modifies ctx, ctx.stack
    ensures ctx.Ready() && WroteOne(ctx)
    ensures ctx.output == old(ctx.output) + KeyBytes(key) + Encode(v)
    decreases v, 4
  {
    if key != [] {
      ctx.WriteKey(key);
    }
    WriteUnkeyed(ctx, v);
  }

  method WriteUnkeyed(ctx: Context, v: Value)
    requires ctx.Ready() && TakesValue(ctx.stack[ctx.head])
    requires Writable(v) && ctx.head + Depth(v) < CONTAINER_STACK_MAX
    modifies ctx, ctx.stack
    ensures ctx.Ready() && WroteOne(ctx)
    ensures ctx.output == old(ctx.output) + Encode(v)
    decreases v, 3
  {
    match v
    case Obj(fields) => var _ := WriteObject(ctx, fields);
    case Arr(items) => var _ := WriteArray(ctx, items);
    case Buf(data) => WriteByteBuffer(ctx, data);
    case Null => WriteScalar(ctx, v);
    case Bool(_) => WriteScalar(ctx, v);
    case I32(_) => WriteScalar(ctx, v);
    case I64(_) => WriteScalar(ctx, v);
    case F32(_) => WriteScalar(ctx, v);
    case F64(_) => WriteScalar(ctx, v);
    case Str(_) => WriteScalar(ctx, v);
  }

  function ScalarType(v: Value): Type
    requires !v.Obj? && !v.Arr? && !v.Buf?
  {
    match v
    case Null => NullType
    case Bool(b) => if b then BoolTrue else BoolFalse
    case I32(_) => Int32
    case I64(_) => Int64
    case F32(_) => Float32
    case F64(_) => Float64
    case Str(_) => String
  }

  function ScalarPayload(v: Value): bytes
    requires Writable(v) && !v.Obj? && !v.Arr? && !v.Buf?
  {
    match v
    case I32(n) => IntBytes(Int32, n)
    case I64(n) => IntBytes(Int64, n)
    case F32(bits) => BigEndian32(bits)
    case F64(bits) => BigEndian64(bits)
    case Str(s) => TaggedNum(MinNum(|CStr(s)|)) + CStr(s)
    case _ => []
  }

  lemma ScalarShape(v: Value)
    requires Writable(v) && !v.Obj? && !v.Arr? && !v.Buf?
    ensures Encode(v) == [TagOf(ScalarType(v))] + ScalarPayload(v)
  {
    hide IntBytes, BigEndian32, BigEndian64, TaggedNum, TagOf, MinNum, CStr;
    assert Encode(v) == [TagOf(ScalarType(v))] + Payload(Syntax(v));
  }

  method WriteScalar(ctx: Context, v: Value)
    requires ctx.Ready() && TakesValue(ctx.stack[ctx.head])
    requires Writable(v) && !v.Obj? && !v.Arr? && !v.Buf?
    modifies ctx, ctx.stack
    ensures ctx.Ready() && WroteOne(ctx)
    ensures ctx.output == old(ctx.output) + Encode(v)
  {
    hide Encode, IntBytes, BigEndian32, BigEndian64, TaggedNum, TagOf, MinNum, CStr;
    ScalarShape(v);
    ctx.Tag(ScalarType(v));
    match v
    case I32(n) => ctx.WriteRawInt(Int32, n);
    case I64(n) => ctx.WriteRawInt(Int64, n);
    case F32(bits) => ctx.Write(BigEndian32(bits));
    case F64(bits) => ctx.Write(BigEndian64(bits));
    case Str(s) => ctx.WriteRawString(s);
    case _ =>
  }

  // ----- the encoding, spelled out -----

  lemma SizeIs(n: nat)
    requires n < TWO_32
    ensures TaggedNum(MinNum(n)) == SizeBytes(n)
  {
    MarksAre();
    MinIntegerTypeIs(n);
    hide MinIntegerType, IntBytes, Bytes4, Bytes8;
    if n < 32768 {
      SmallIs(n);
    } else {
      NumberIs(n);
    }
  }

  lemma SmallIs(n: nat)
    requires n < 32768
    ensures n < 128 ==> IntBytes(Int8, n) == [n as byte]
    ensures n < 256 ==> IntBytes(UInt8, n) == [n as byte]
    ensures IntBytes(Int16, n) == [(n / 256) as byte, (n % 256) as byte]
  {}

  lemma NumberIs(n: int64)
    ensures IntBytes(Int64, n) == Bytes8(n)
    ensures InRange(Int32, n) ==> IntBytes(Int32, n) == Bytes4(n)
  {
    DivModUnique(n, TWO_64, if n < 0 then -1 else 0, if n < 0 then n + TWO_64 else n);
    BigEndian64Is(Unsigned(n, TWO_64));
    if InRange(Int32, n) {
      DivModUnique(n, TWO_32, if n < 0 then -1 else 0, if n < 0 then n + TWO_32 else n);
      BigEndian32Is(Unsigned(n, TWO_32));
    }
  }

  lemma OpeningsAre()
    ensures Ascii("{}") == [OPEN_OBJECT, CLOSE_OBJECT] && Ascii("{#") == [OPEN_OBJECT] + Ascii("#")
    ensures Ascii("[]") == [OPEN_ARRAY, CLOSE_ARRAY] && Ascii("[#") == [OPEN_ARRAY] + Ascii("#")
    ensures Ascii("[$i#") == [OPEN_ARRAY] + Ascii("$i#")
  {}

  lemma HeaderIs(n: nat)
    requires n < TWO_32
    ensures HeaderBytes(MixedHeader(n)) == if n == 0 then [] else Ascii("#") + SizeBytes(n)
    ensures HeaderBytes(Header(Int8, Some(MinNum(n)))) == Ascii("$i#") + SizeBytes(n)
  {
    SizeIs(n);
    HeaderOf(MinNum(n));
    hide SizeBytes, TaggedNum, Ascii, HeaderBytes;
    HeaderParts(MinNum(n));
  }

  lemma HeaderOf(num: Num)
    requires ValidNum(num) && num.n >= 0
    ensures HeaderBytes(Header(Mixed, Some(num))) == Ascii("#") + TaggedNum(num)
    ensures HeaderBytes(Header(Int8, Some(num))) == Ascii("$i#") + TaggedNum(num)
  {
    HeaderMarks();
    hide TaggedNum, HeaderBytes, Ascii, TagOf;
    HeaderParts(num);
    var size := TaggedNum(num);
    assert [TYPE_MARK, TagOf(Int8)] + ([COUNT_MARK] + size) == ([TYPE_MARK, TagOf(Int8)] + [COUNT_MARK]) + size;
  }

  lemma HeaderMarks()
    ensures Ascii("#") == [COUNT_MARK] && Ascii("$i#") == [TYPE_MARK, TagOf(Int8)] + [COUNT_MARK]
  {}

  lemma HeaderParts(num: Num)
    requires ValidNum(num) && num.n >= 0
    ensures ValidHeader(Header(Mixed, Some(num))) && ValidHeader(Header(Int8, Some(num)))
    ensures HeaderBytes(Header(Mixed, None)) == []
    ensures HeaderBytes(Header(Mixed, Some(num))) == [COUNT_MARK] + TaggedNum(num)
    ensures HeaderBytes(Header(Int8, Some(num))) == [TYPE_MARK, TagOf(Int8)] + ([COUNT_MARK] + TaggedNum(num))
  {
    hide TaggedNum, TagOf;
  }

  lemma Openings(a: bytes, b: bytes, c: bytes, d: bytes)
    ensures a + (b + c) + d == (a + b) + c + d && (a + (b + c) + d) + [] == a + (b + c) + d
  {}

  lemma ScalarIs(v: Value)
    requires Writable(v) && !v.Obj? && !v.Arr? && !v.Buf?
    ensures Encode(v) == Draft(v)
  {
    hide Encode, SizeBytes, TaggedNum, MinNum, Bytes4, Bytes8, Unsigned4, Unsigned8, IntBytes, CStr;
    ScalarShape(v);
    MarksAre();
    match v
    case I32(i) => NumberIs(i);
    case I64(l) => NumberIs(l);
    case F32(f) => RealIs(f);
    case F64(d) => RealIs(d);
    case Str(s) => SizeIs(|CStr(s)|);
    case _ =>
  }

  lemma RealIs(bits: uint64)
    ensures BigEndian64(bits) == Unsigned8(bits) && (bits < TWO_32 ==> BigEndian32(bits) == Unsigned4(bits))
  {
    BigEndian64Is(bits);
    if bits < TWO_32 { BigEndian32Is(bits); }
  }

  /** What the writer must produce is the value spelled out in the format's characters. */
  lemma {:induction false} EncodeIsDraft(v: Value)
    requires Writable(v)
    ensures Encode(v) == Draft(v)
    decreases v, 1
  {
    hide Encode, Draft, Entries, Elems, FieldsSyntax, ItemsSyntax;
    match v
    case Obj(fields) =>
      FieldsAre(fields);
      ObjectIs(fields);
    case Arr(items) =>
      ItemsAre(items);
      ArrayIs(items);
    case Buf(data) => BufferIs(data);
    case _ => ScalarIs(v);
  }

  lemma ObjectIs(fields: seq<Field>)
    requires Writable(Obj(fields)) && Entries(Mixed, FieldsSyntax(fields)) == DraftFields(fields)
    ensures Encode(Obj(fields)) == Draft(Obj(fields))
  {
    DraftIs(Obj(fields));
    hide Encode, Draft, SizeBytes, HeaderBytes, MixedHeader, Entries, FieldsSyntax, DraftFields, Ascii;
    OpeningsAre();
    ObjectShape(fields);
    HeaderIs(|fields|);
    if fields != [] {
      Openings([OPEN_OBJECT], Ascii("#"), SizeBytes(|fields|), DraftFields(fields));
    }
  }

  lemma ArrayIs(items: seq<Value>)
    requires Writable(Arr(items)) && Elems(Mixed, ItemsSyntax(items)) == DraftItems(items)
    ensures Encode(Arr(items)) == Draft(Arr(items))
  {
    DraftIs(Arr(items));
    hide Encode, Draft, SizeBytes, HeaderBytes, MixedHeader, Elems, ItemsSyntax, DraftItems, Ascii;
    OpeningsAre();
    ArrayShape(items);
    HeaderIs(|items|);
    if items != [] {
      Openings([OPEN_ARRAY], Ascii("#"), SizeBytes(|items|), DraftItems(items));
    }
  }

  lemma BufferIs(data: bytes)
    requires Writable(Buf(data))
    ensures Encode(Buf(data)) == Draft(Buf(data))
  {
    DraftIs(Buf(data));
    hide Encode, Draft, SizeBytes, HeaderBytes, Ascii;
    OpeningsAre();
    BufferShape(data);
    HeaderIs(|data|);
    if data == [] {
      EmptyIs();
    } else {
      Openings([OPEN_ARRAY], Ascii("$i#"), SizeBytes(|data|), data);
    }
  }

  lemma EmptyIs()
    ensures Encode(Arr([])) == Ascii("[]")
  {
    hide Encode, Draft;
    DraftIs(Arr([]));
    ArrayIs([]);
  }

  lemma {:induction false} ItemsAre(items: seq<Value>)
    requires WritableItems(items)
    ensures Elems(Mixed, ItemsSyntax(items)) == DraftItems(items)
    decreases items, 2
  {
    if items != [] {
      hide Syntax, Draft, Element;
      EncodeIsDraft(items[0]);
      ItemsAre(items[1..]);
      assert ItemsSyntax(items)[1..] == ItemsSyntax(items[1..]);
    }
  }

  lemma {:induction false} FieldsAre(fields: seq<Field>)
    requires WritableFields(fields)
    ensures Entries(Mixed, FieldsSyntax(fields)) == DraftFields(fields)
    decreases fields, 2
  {
    if fields != [] {
      hide Syntax, Draft, Element, SizeBytes, TaggedNum, MinNum;
      EncodeIsDraft(fields[0].value);
      FieldsAre(fields[1..]);
      SizeIs(|fields[0].key|);
      assert FieldsSyntax(fields)[1..] == FieldsSyntax(fields[1..]);
    }
  }

  /** The whole writer: only an object or an array (or byte buffer) produces output. */
  method Write(v: Value) returns (output: bytes)
    requires Writable(v) && Depth(v) < CONTAINER_STACK_MAX
    ensures output == if v.Obj? || v.Arr? || v.Buf? then Encode(v) else []
    ensures v.Obj? || v.Arr? || v.Buf? ==> output == Draft(v)
  {
    hide Encode, Draft;
    EncodeIsDraft(v);
    var ctx := new Context();
    if v.Obj? {
      var _ := WriteObject(ctx, v.fields);
    } else if v.Arr? {
      var _ := WriteArray(ctx, v.items);
    } else if v.Buf? {
      WriteByteBuffer(ctx, v.data);
    }
    output := ctx.output;
  }
}
