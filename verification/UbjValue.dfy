/** The application's value tree, the syntax the writer chooses for it, and the tree the reader
    rebuilds; the two agree on every value whose strings are C strings. */
module UbjValue {
  import opened Options
  import opened Bytes
  import opened UbjSyntax

  /** An object is an ordered map: its fields are listed in ascending key order. */
  datatype Value =
    | Null
    | Bool(b: bool)
    | I32(i: int32)
    | I64(l: int64)
    | F32(f: uint32)
    | F64(d: uint64)
    | Str(s: bytes)
    | Obj(fields: seq<Field>)
    | Arr(items: seq<Value>)
    | Buf(data: bytes)

  datatype Field = Field(key: bytes, value: Value)

  // ----- key order -----

  predicate Less(a: bytes, b: bytes) {
    b != [] && (a == [] || a[0] < b[0] || (a[0] == b[0] && Less(a[1..], b[1..])))
  }

  lemma {:induction false} LessTrichotomy(a: bytes, b: bytes)
    ensures (a == b && !Less(a, b) && !Less(b, a))
         || (a != b && Less(a, b) && !Less(b, a))
         || (a != b && !Less(a, b) && Less(b, a))
    decreases |a|
  {
    if a != [] && b != [] {
      assert a == [a[0]] + a[1..] && b == [b[0]] + b[1..];
      LessTrichotomy(a[1..], b[1..]);
    }
  }

  lemma {:induction false} LessTransitive(a: bytes, b: bytes, c: bytes)
    requires Less(a, b) && Less(b, c)
    ensures Less(a, c)
    decreases |a|
  {
    if a != [] && a[0] == b[0] && b[0] == c[0] {
      LessTransitive(a[1..], b[1..], c[1..]);
    }
  }

  /** The order of C strings by bytes: at the first difference the smaller byte, or the end, comes first. */
  lemma {:induction false} LessIs(a: bytes, b: bytes)
    ensures Less(a, b) <==> exists k :: 0 <= k <= |a| && k < |b| && a[..k] == b[..k] && (k == |a| || a[k] < b[k])
    decreases |a|
  {
    if b != [] && a != [] && a[0] == b[0] {
      LessIs(a[1..], b[1..]);
      if k :| 0 <= k <= |a| - 1 && k < |b| - 1 && a[1..][..k] == b[1..][..k]
              && (k == |a| - 1 || a[1..][k] < b[1..][k]) {
        assert a[..k + 1] == [a[0]] + a[1..][..k] && b[..k + 1] == [b[0]] + b[1..][..k];
        assert a[..k + 1] == b[..k + 1];
      }
      if k :| 0 <= k <= |a| && k < |b| && a[..k] == b[..k] && (k == |a| || a[k] < b[k]) {
        assert k > 0;
        assert a[1..][..k - 1] == a[..k][1..] && b[1..][..k - 1] == b[..k][1..];
      }
    } else if b != [] && (a == [] || a[0] < b[0]) {
      assert a[..0] == b[..0];
    } else if k :| 0 <= k <= |a| && k < |b| && a[..k] == b[..k] && (k == |a| || a[k] < b[k]) {
      assert k > 0 ==> a[..k][0] == b[..k][0];
    }
  }

  predicate Ascending(fields: seq<Field>) {
    forall i, j :: 0 <= i < j < |fields| ==> Less(fields[i].key, fields[j].key)
  }

  // ----- what the writer accepts -----

  /** Objects carry non-empty NUL-free keys in map order, and every size fits the 32-bit
      sizes of the value classes. */
  predicate Writable(v: Value)
    decreases v, 0
  {
    match v
    case Str(s) => |s| < TWO_32
    case Buf(data) => |data| < TWO_32
    case Obj(fields) => |fields| < TWO_32 && Ascending(fields) && WritableFields(fields)
    case Arr(items) => |items| < TWO_32 && WritableItems(items)
    case _ => true
  }

  predicate WritableItems(items: seq<Value>)
    decreases items, 1
  {
    forall i :: 0 <= i < |items| ==> Writable(items[i])
  }

  predicate WritableFields(fields: seq<Field>)
    decreases fields, 1
  {
    forall i :: 0 <= i < |fields| ==>
      0 < |fields[i].key| < TWO_32 && 0 !in fields[i].key && Writable(fields[i].value)
  }

  /** Containers nested in a value. */
  function Depth(v: Value): nat
    decreases v, 0
  {
    match v
    case Obj(fields) => 1 + FieldsDepth(fields)
    case Arr(items) => 1 + ItemsDepth(items)
    case Buf(_) => 1
    case _ => 0
  }

  function Max(a: nat, b: nat): nat {
    if a < b then b else a
  }

  function ItemsDepth(items: seq<Value>): (d: nat)
    ensures forall i :: 0 <= i < |items| ==> Depth(items[i]) <= d
    decreases items, 1
  {
    if items == [] then 0 else Max(Depth(items[0]), ItemsDepth(items[1..]))
  }

  function FieldsDepth(fields: seq<Field>): (d: nat)
    ensures forall i :: 0 <= i < |fields| ==> Depth(fields[i].value) <= d
    decreases fields, 1
  {
    if fields == [] then 0 else Max(Depth(fields[0].value), FieldsDepth(fields[1..]))
  }

  // ----- the syntax the writer chooses -----

  function MinNum(n: int): Num
    requires 0 <= n < TWO_32
  {
    Num(MinIntegerType(n), n)
  }

  function MixedHeader(n: int): Header
    requires 0 <= n < TWO_32
  {
    Header(Mixed, if n == 0 then None else Some(MinNum(n)))
  }

  function Syntax(v: Value): (w: Wire)
    requires Writable(v)
    ensures WellFormed(w)
    decreases v, 1
  {
    match v
    case Null => WEmpty(NullType)
    case Bool(b) => WEmpty(if b then BoolTrue else BoolFalse)
    case I32(i) => WInt(Num(Int32, i))
    case I64(l) => WInt(Num(Int64, l))
    case F32(f) => WReal(Float32, f)
    case F64(d) => WReal(Float64, d)
    case Str(s) => WStr(String, MinNum(|CStr(s)|), CStr(s))
    case Obj(fields) => WObj(MixedHeader(|fields|), FieldsSyntax(fields))
    case Arr(items) => WArr(MixedHeader(|items|), ItemsSyntax(items))
    case Buf(data) =>
      if data == [] then WArr(MixedHeader(0), [])
      else WRaw(Header(Int8, Some(MinNum(|data|))), data)
  }

  function ItemsSyntax(items: seq<Value>): (ws: seq<Wire>)
    requires WritableItems(items)
    ensures |ws| == |items| && WellFormedElems(Mixed, ws)
    decreases items, 2
  {
    if items == [] then [] else [Syntax(items[0])] + ItemsSyntax(items[1..])
  }

  function FieldSyntax(f: Field): Entry
    requires |f.key| < TWO_32 && Writable(f.value)
    decreases f, 2
  {
    Entry(MinNum(|f.key|), f.key, Syntax(f.value))
  }

  function FieldsSyntax(fields: seq<Field>): (es: seq<Entry>)
    requires WritableFields(fields)
    ensures |es| == |fields| && WellFormedEntries(Mixed, es)
    decreases fields, 3
  {
    if fields == [] then [] else [FieldSyntax(fields[0])] + FieldsSyntax(fields[1..])
  }

  /** The bytes of a value: what the writer must produce. */
  function Encode(v: Value): bytes
    requires Writable(v)
  {
    Tagged(Syntax(v))
  }

  // ----- rebuilding a value from what was read -----

  /** Assigns a key in an ordered map. */
  function Put(fields: seq<Field>, key: bytes, v: Value): seq<Field> {
    if fields == [] || Less(key, fields[0].key) then [Field(key, v)] + fields
    else if fields[0].key == key then [Field(key, v)] + fields[1..]
    else [fields[0]] + Put(fields[1..], key, v)
  }

  /** An assignment in the map: the key has the value, other keys keep theirs, and the order is kept. */
  lemma {:induction false} PutIs(fields: seq<Field>, key: bytes, v: Value)
    requires Ascending(fields)
    ensures Ascending(Put(fields, key, v))
    ensures forall f :: f in Put(fields, key, v) <==> f == Field(key, v) || (f in fields && f.key != key)
    decreases |fields|
  {
    if fields != [] {
      LessTrichotomy(key, fields[0].key);
      if Less(key, fields[0].key) {
        forall i | 0 <= i < |fields| ensures Less(key, fields[i].key) && fields[i].key != key {
          if i > 0 { LessTransitive(key, fields[0].key, fields[i].key); }
          LessTrichotomy(key, fields[i].key);
        }
      } else if fields[0].key == key {
        forall i | 0 < i < |fields| ensures fields[i].key != key {
          LessTrichotomy(key, fields[i].key);
        }
      } else {
        PutIs(fields[1..], key, v);
        forall f | f in Put(fields[1..], key, v) ensures Less(fields[0].key, f.key) {
          if f != Field(key, v) {
            var i :| 0 <= i < |fields[1..]| && fields[1..][i] == f;
            assert fields[i + 1] == f;
          }
        }
      }
    }
  }

  function ToValue(d: Dyn): Value
    decreases d, 0
  {
    match d
    case DEmpty(t) => if t.BoolTrue? || t.BoolFalse? then Bool(t.BoolTrue?) else Null
    case DInt(t, n) =>
      if t.Int32? && InRange(Int32, n) then I32(n)
      else if t.Int64? && InRange(Int64, n) then I64(n)
      else Null
    case DReal(t, bits) =>
      if t.Float32? && bits < TWO_32 then F32(bits)
      else if t.Float64? && bits < TWO_64 then F64(bits)
      else Null
    case DStr(t, chars) => if t.String? && CStr(chars) != [] then Str(CStr(chars)) else Null
    case DArr(elem, elems) => if elem.Mixed? then Arr(ToItems(elems)) else Buf([])
    case DRaw(elem, count, memory) => if elem.Int8? then Buf(memory) else Buf([])
    case DObj(_, keys, values) => if |keys| == |values| then Obj(ToFields(keys, values)) else Null
  }

  function ToItems(elems: seq<Dyn>): (r: seq<Value>)
    ensures |r| == |elems|
    ensures forall i :: 0 <= i < |elems| ==> r[i] == ToValue(elems[i])
    decreases elems, 1
  {
    if elems == [] then [] else [ToValue(elems[0])] + ToItems(elems[1..])
  }

  /** Keys are inserted left to right, so the last key is inserted into the rest. */
  function ToFields(keys: seq<bytes>, values: seq<Dyn>): seq<Field>
    requires |keys| == |values|
    decreases values, 1
  {
    if keys == [] then []
    else
      var last := |keys| - 1;
      Put(ToFields(keys[..last], values[..last]), CStr(keys[last]), ToValue(values[last]))
  }

  // ----- the round trip on values -----

  /** The value after its strings went through C strings: cut at the first NUL, and an empty
      string or buffer no longer distinguishable from null or an empty array. */
  function Canon(v: Value): (r: Value)
    decreases v, 0
  {
    match v
    case Str(s) => if CStr(s) == [] then Null else Str(CStr(s))
    case Obj(fields) => Obj(CanonFields(fields))
    case Arr(items) => Arr(CanonItems(items))
    case Buf(data) => if data == [] then Arr([]) else v
    case _ => v
  }

  function CanonItems(items: seq<Value>): (r: seq<Value>)
    ensures |r| == |items|
    ensures forall i :: 0 <= i < |items| ==> r[i] == Canon(items[i])
    decreases items, 1
  {
    if items == [] then [] else [Canon(items[0])] + CanonItems(items[1..])
  }

  function CanonFields(fields: seq<Field>): (r: seq<Field>)
    ensures |r| == |fields|
    ensures forall i :: 0 <= i < |fields| ==> r[i] == Field(fields[i].key, Canon(fields[i].value))
    decreases fields, 1
  {
    if fields == [] then []
    else [Field(fields[0].key, Canon(fields[0].value))] + CanonFields(fields[1..])
  }

  /** Every string is a non-empty C string and every buffer is non-empty. */
  predicate CClean(v: Value)
    decreases v, 0
  {
    match v
    case Str(s) => s != [] && 0 !in s
    case Obj(fields) => forall i :: 0 <= i < |fields| ==> CClean(fields[i].value)
    case Arr(items) => forall i :: 0 <= i < |items| ==> CClean(items[i])
    case Buf(data) => data != []
    case _ => true
  }

  /** What comes back of a single value: everything but texts is kept, and an empty buffer is a list. */
  lemma CanonIs(v: Value)
    ensures v.Str? ==>
              if v.s == [] || v.s[0] == 0 then Canon(v) == Null
              else Canon(v).Str? && Canon(v).s != [] && Canon(v).s <= v.s && 0 !in Canon(v).s
                   && (Canon(v).s == v.s || v.s[|Canon(v).s|] == 0)
    ensures v.Null? || v.Bool? || v.I32? || v.I64? || v.F32? || v.F64? ==> Canon(v) == v
    ensures v.Buf? ==> Canon(v) == if v.data == [] then Arr([]) else v
    ensures v.Arr? ==> Canon(v).Arr? && |Canon(v).items| == |v.items|
                       && forall i :: 0 <= i < |v.items| ==> Canon(v).items[i] == Canon(v.items[i])
    ensures v.Obj? ==> Canon(v).Obj? && |Canon(v).fields| == |v.fields|
                       && forall i :: 0 <= i < |v.fields| ==>
                            Canon(v).fields[i] == Field(v.fields[i].key, Canon(v.fields[i].value))
  {}

  /** The writer's strings survive exactly when they are C strings. */
  lemma {:induction false} CanonIsIdentityIffClean(v: Value)
    ensures Canon(v) == v <==> CClean(v)
    decreases v
  {
    match v
    case Obj(fields) =>
      forall i | 0 <= i < |fields|
        ensures CanonFields(fields)[i] == fields[i] <==> CClean(fields[i].value)
      {
        CanonIsIdentityIffClean(fields[i].value);
      }
    case Arr(items) =>
      forall i | 0 <= i < |items|
        ensures CanonItems(items)[i] == items[i] <==> CClean(items[i])
      {
        CanonIsIdentityIffClean(items[i]);
      }
    case _ =>
  }

  /** Reading back the syntax of any writable value gives its canonical form. */
  lemma {:induction false} SyntaxMeansValue(v: Value)
    requires Writable(v)
    ensures ToValue(Meaning(Syntax(v))) == Canon(v)
    decreases v, 1
  {
    match v
    case Obj(fields) => ObjectMeans(fields);
    case Arr(items) => ArrayMeans(items);
    case Buf(data) => BufferMeans(data);
    case _ => ScalarMeans(v);
  }

  lemma {:induction false} ObjectMeans(fields: seq<Field>)
    requires Writable(Obj(fields))
    ensures ToValue(Meaning(Syntax(Obj(fields)))) == Canon(Obj(fields))
    decreases fields, 2
  {
    FieldsMean(fields);
    ObjectShape(fields);
  }

  lemma ObjectShape(fields: seq<Field>)
    requires Writable(Obj(fields))
    ensures var es := FieldsSyntax(fields);
            ToValue(Meaning(Syntax(Obj(fields)))) == Obj(ToFields(Keys(es), EntryMeanings(Mixed, es)))
  {
    hide ToFields, Keys, EntryMeanings, FieldsSyntax, WellFormedEntries, WritableFields;
    var es := FieldsSyntax(fields);
    var w := Syntax(Obj(fields));
    assert w == WObj(MixedHeader(|fields|), es);
    assert Meaning(w) == DObj(Mixed, Keys(es), EntryMeanings(Mixed, es));
  }

  lemma {:induction false} ArrayMeans(items: seq<Value>)
    requires Writable(Arr(items))
    ensures ToValue(Meaning(Syntax(Arr(items)))) == Canon(Arr(items))
    decreases items, 2
  {
    ItemsMean(items);
    var d := Meaning(Syntax(Arr(items)));
    assert d.elems == Meanings(Mixed, ItemsSyntax(items));
  }

  lemma ScalarMeans(v: Value)
    requires Writable(v) && !v.Obj? && !v.Arr? && !v.Buf?
    ensures ToValue(Meaning(Syntax(v))) == Canon(v)
  {
    if v.Str? { assert CStr(CStr(v.s)) == CStr(v.s); }
  }

  lemma BufferMeans(data: bytes)
    requires Writable(Buf(data))
    ensures ToValue(Meaning(Syntax(Buf(data)))) == Canon(Buf(data))
  {
    if data != [] { SwapSize1(data); }
  }

  lemma {:induction false} ItemsMean(items: seq<Value>)
    requires WritableItems(items)
    ensures ToItems(Meanings(Mixed, ItemsSyntax(items))) == CanonItems(items)
    decreases items, 0
  {
    if items != [] {
      SyntaxMeansValue(items[0]);
      ItemsMean(items[1..]);
    }
  }

  lemma {:induction false} FieldsMean(fields: seq<Field>)
    requires WritableFields(fields) && Ascending(fields)
    ensures var es := FieldsSyntax(fields);
            ToFields(Keys(es), EntryMeanings(Mixed, es)) == CanonFields(fields)
    decreases fields, 0
  {
    FieldsSyntaxAt(fields);
    var es := FieldsSyntax(fields);
    forall i | 0 <= i < |fields|
      ensures ToValue(EntryMeanings(Mixed, es)[i]) == Canon(fields[i].value)
    {
      SyntaxMeansValue(fields[i].value);
    }
    InsertAscending(Keys(es), EntryMeanings(Mixed, es), CanonFields(fields));
  }

  lemma {:induction false} FieldsSyntaxAt(fields: seq<Field>)
    requires WritableFields(fields)
    ensures forall i :: 0 <= i < |fields| ==> FieldsSyntax(fields)[i] == FieldSyntax(fields[i])
    decreases |fields|
  {
    if fields != [] {
      FieldsSyntaxAt(fields[1..]);
    }
  }

  /** Keys that arrive in map order are appended one after the other. */
  lemma {:induction false} InsertAscending(keys: seq<bytes>, values: seq<Dyn>, fields: seq<Field>)
    requires |keys| == |values| == |fields|
    requires Ascending(fields)
    requires forall i :: 0 <= i < |fields| ==>
               fields[i].key == CStr(keys[i]) && fields[i].value == ToValue(values[i])
    ensures ToFields(keys, values) == fields
    decreases |keys|
  {
    hide ToValue, CStr, Put, Less;
    if keys != [] {
      var last := |keys| - 1;
      InsertAscending(keys[..last], values[..last], fields[..last]);
      PutLast(fields[..last], fields[last].key, fields[last].value);
      assert fields == fields[..last] + [fields[last]];
    }
  }

  lemma {:induction false} PutLast(fields: seq<Field>, key: bytes, v: Value)
    requires forall i :: 0 <= i < |fields| ==> Less(fields[i].key, key)
    ensures Put(fields, key, v) == fields + [Field(key, v)]
    decreases |fields|
  {
    if fields != [] {
      LessTrichotomy(fields[0].key, key);
      PutLast(fields[1..], key, v);
    }
  }
}
