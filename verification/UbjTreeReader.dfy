/** Rebuilding the application's value from what the reader produced: object keys are looked up
    through a sorted table, and the whole codec is closed by the round trip. */
module UbjTreeReader {
  import opened Options
  import opened Bytes
  import opened UbjSyntax
  import opened UbjValue
  import UbjReader
  import UbjTreeWriter
  import opened UbjWriter

  // ----- the sorted key table -----

  /** A C-string key and the position of its value. */
  datatype SortedKey = SortedKey(key: bytes, at: nat)

  predicate InOrder(t: seq<SortedKey>) {
    forall i, j :: 0 <= i < j < |t| ==> !Less(t[j].key, t[i].key)
  }

  function InsertSorted(k: SortedKey, t: seq<SortedKey>): seq<SortedKey> {
    if t == [] || !Less(t[0].key, k.key) then [k] + t else [t[0]] + InsertSorted(k, t[1..])
  }

  /** The library sort, as an insertion sort. */
  function SortKeys(t: seq<SortedKey>): seq<SortedKey> {
    if t == [] then [] else InsertSorted(t[0], SortKeys(t[1..]))
  }

  lemma {:induction false} InsertKeepsOrder(k: SortedKey, t: seq<SortedKey>)
    requires InOrder(t)
    ensures InOrder(InsertSorted(k, t))
    ensures multiset(InsertSorted(k, t)) == multiset{k} + multiset(t)
    decreases |t|
  {
    hide Less;
    if t != [] && Less(t[0].key, k.key) {
      InsertKeepsOrder(k, t[1..]);
      var r := InsertSorted(k, t[1..]);
      LessTrichotomy(t[0].key, k.key);
      forall j | 0 <= j < |r| ensures !Less(r[j].key, t[0].key) {
        assert r[j] in multiset(r);
        if r[j] != k { assert r[j] in multiset(t[1..]); }
      }
      assert t == [t[0]] + t[1..];
    } else if t != [] {
      LessTrichotomy(t[0].key, k.key);
      forall j | 0 <= j < |t| ensures !Less(t[j].key, k.key) {
        LessTrichotomy(t[0].key, t[j].key);
        if Less(t[j].key, k.key) && Less(t[0].key, t[j].key) {
          LessTransitive(t[0].key, t[j].key, k.key);
        }
      }
    }
  }

  lemma {:induction false} SortKeysCorrect(t: seq<SortedKey>)
    ensures InOrder(SortKeys(t)) && multiset(SortKeys(t)) == multiset(t)
    decreases |t|
  {
    if t != [] {
      SortKeysCorrect(t[1..]);
      InsertKeepsOrder(t[0], SortKeys(t[1..]));
      assert t == [t[0]] + t[1..];
    }
  }

  predicate TableOf(keys: seq<bytes>, table: seq<SortedKey>) {
    && InOrder(table)
    && (forall k :: 0 <= k < |table| ==> table[k].at < |keys| && table[k].key == CStr(keys[table[k].at]))
    && (forall i :: 0 <= i < |keys| ==> SortedKey(CStr(keys[i]), i) in table)
  }

  method BuildSortedKeys(keys: seq<bytes>) returns (table: seq<SortedKey>)
    ensures TableOf(keys, table)
  {
    var unsorted: seq<SortedKey> := [];
    for i := 0 to |keys|
      invariant |unsorted| == i
      invariant forall k :: 0 <= k < i ==> unsorted[k] == SortedKey(CStr(keys[k]), k)
    {
      unsorted := unsorted + [SortedKey(CStr(keys[i]), i)];
    }
    table := SortKeys(unsorted);
    SortKeysCorrect(unsorted);
    forall k | 0 <= k < |table|
      ensures table[k].at < |keys| && table[k].key == CStr(keys[table[k].at])
    {
      assert table[k] in multiset(table);
      assert table[k] in unsorted;
    }
    forall i | 0 <= i < |keys| ensures SortedKey(CStr(keys[i]), i) in table {
      assert unsorted[i] in multiset(unsorted);
      assert unsorted[i] in multiset(table);
    }
  }

  /** Binary search for a key: the position of a value stored under it, or a miss when there is none. */
  method Lookup(keys: seq<bytes>, key: bytes) returns (at: Option<nat>)
    ensures at.Some? ==> at.value < |keys| && CStr(keys[at.value]) == key
    ensures at.None? ==> forall i :: 0 <= i < |keys| ==> CStr(keys[i]) != key
  {
    var table := BuildSortedKeys(keys);
    var lo, hi := 0, |table|;
    while lo < hi
      invariant 0 <= lo <= hi <= |table|
      invariant forall k :: 0 <= k < lo ==> Less(table[k].key, key)
      invariant forall k :: hi <= k < |table| ==> Less(key, table[k].key)
    {
      var mid := (lo + hi) / 2;
      LessTrichotomy(table[mid].key, key);
      if Less(table[mid].key, key) {
        BelowMiddle(table, mid, key);
        lo := mid + 1;
      } else if Less(key, table[mid].key) {
        AboveMiddle(table, mid, key);
        hi := mid;
      } else {
        return Some(table[mid].at);
      }
    }
    forall i | 0 <= i < |keys| ensures CStr(keys[i]) != key {
      assert SortedKey(CStr(keys[i]), i) in table;
      var k :| 0 <= k < |table| && table[k] == SortedKey(CStr(keys[i]), i);
      LessTrichotomy(table[k].key, key);
    }
    at := None;
  }

  lemma BelowMiddle(table: seq<SortedKey>, mid: nat, key: bytes)
    requires InOrder(table) && mid < |table| && Less(table[mid].key, key)
    ensures forall k :: 0 <= k <= mid ==> Less(table[k].key, key)
  {
    forall k | 0 <= k < mid ensures Less(table[k].key, key) {
      LessTrichotomy(table[k].key, table[mid].key);
      if Less(table[k].key, table[mid].key) {
        LessTransitive(table[k].key, table[mid].key, key);
      }
    }
  }

  lemma AboveMiddle(table: seq<SortedKey>, mid: nat, key: bytes)
    requires InOrder(table) && mid < |table| && Less(key, table[mid].key)
    ensures forall k :: mid <= k < |table| ==> Less(key, table[k].key)
  {
    forall k | mid < k < |table| ensures Less(key, table[k].key) {
      LessTrichotomy(table[mid].key, table[k].key);
      if Less(table[mid].key, table[k].key) {
        LessTransitive(key, table[mid].key, table[k].key);
      }
    }
  }

  // ----- rebuilding -----

  /** Keys stay apart as C strings, at every level. */
  predicate DistinctKeys(d: Dyn)
    decreases d
  {
    match d
    case DObj(_, keys, values) =>
      && |keys| == |values|
      && (forall i, j :: 0 <= i < j < |keys| ==> CStr(keys[i]) != CStr(keys[j]))
      && (forall i :: 0 <= i < |values| ==> DistinctKeys(values[i]))
    case DArr(_, elems) => forall i :: 0 <= i < |elems| ==> DistinctKeys(elems[i])
    case _ => true
  }

  method ReadDynamic(d: Dyn) returns (v: Value)
    requires DistinctKeys(d)
    ensures v == ToValue(d)
    decreases d, 1
  {
    match d
    case DObj(_, keys, values) =>
      var fields := ReadObject(d);
      v := Obj(fields);
    case DArr(elem, elems) =>
      if elem.Mixed? {
        var items := ReadArray(d);
        v := Arr(items);
      } else {
        v := Buf([]);
      }
    case DRaw(elem, _, memory) => v := if elem.Int8? then Buf(memory) else Buf([]);
    case _ => v := ToValue(d);
  }

  method ReadObject(d: Dyn) returns (res: seq<Field>)
    requires d.DObj? && DistinctKeys(d)
    ensures res == ToFields(d.keys, d.values)
    decreases d, 0
  {
    res := [];
    for i := 0 to |d.keys|
      invariant res == ToFields(d.keys[..i], d.values[..i])
    {
      var k := CStr(d.keys[i]);
      var at := Lookup(d.keys, k);
      assert at == Some(i);
      var v := ReadDynamic(d.values[at.value]);
      res := Put(res, k, v);
      assert d.keys[..i + 1][..i] == d.keys[..i] && d.values[..i + 1][..i] == d.values[..i];
    }
    assert d.keys[..|d.keys|] == d.keys && d.values[..|d.keys|] == d.values;
  }

  method ReadArray(d: Dyn) returns (res: seq<Value>)
    requires d.DArr? && DistinctKeys(d)
    ensures res == ToItems(d.elems)
    decreases d, 0
  {
    res := [];
    for i := 0 to |d.elems|
      invariant res == ToItems(d.elems)[..i]
    {
      var tmp := ReadDynamic(d.elems[i]);
      res := res + [tmp];
    }
  }

  // ----- the codec -----

  /** A container at the top of a memory block, whatever follows it; anything else is refused. */
  method Read(data: bytes, ghost w: Wire, ghost rest: bytes) returns (ok: bool, v: Value, end: nat)
    requires WellFormed(w) && DistinctKeys(Meaning(w)) && data == Tagged(w) + rest
    ensures ok <==> Kind(w).Array? || Kind(w).Object?
    ensures ok ==> v == ToValue(Meaning(w))
    ensures end == |Tagged(w)| && data[end..] == rest
  {
    hide Meaning, Tagged, WellFormed;
    v := Null;
    var ctx := new UbjReader.Context(data);
    var d := ctx.ReadDynamic(w, rest);
    MeaningKind(w);
    ok := d.DObj? || d.DArr? || d.DRaw?;
    if ok {
      v := ReadDynamic(d);
    }
    end := ctx.pos;
    assert |data[end..]| == |data| - end;
  }

  lemma MeaningKind(w: Wire)
    requires WellFormed(w)
    ensures var d := Meaning(w);
            d.DObj? || d.DArr? || d.DRaw? <==> Kind(w).Array? || Kind(w).Object?
  {}

  /** What the writer writes, followed by anything, the reader reads back and stops behind: the
      value with its strings cut at the first NUL, which is the value itself exactly when its
      strings and buffers are clean. */
  method RoundTrip(v: Value, suffix: bytes) returns (back: Value, end: nat)
    requires Writable(v) && Depth(v) < CONTAINER_STACK_MAX && (v.Obj? || v.Arr? || v.Buf?)
    ensures back == Canon(v) && end == |Encode(v)|
    ensures back == v <==> CClean(v)
  {
    var output := UbjTreeWriter.Write(v);
    SyntaxMeansValue(v);
    WritableKeysDistinct(v);
    CanonIsIdentityIffClean(v);
    var ok, value, at := Read(output + suffix, Syntax(v), suffix);
    SyntaxKind(v);
    back, end := value, at;
  }

  lemma SyntaxKind(v: Value)
    requires Writable(v) && (v.Obj? || v.Arr? || v.Buf?)
    ensures Kind(Syntax(v)).Array? || Kind(Syntax(v)).Object?
  {}

  /** The writer's objects have distinct C-string keys. */
  lemma {:induction false} WritableKeysDistinct(v: Value)
    requires Writable(v)
    ensures DistinctKeys(Meaning(Syntax(v)))
    decreases v
  {
    match v
    case Obj(fields) =>
      FieldsSyntaxAt(fields);
      var es := FieldsSyntax(fields);
      var keys, values := Keys(es), EntryMeanings(Mixed, es);
      ObjectMeaning(fields);
      forall i, j | 0 <= i < j < |keys| ensures CStr(keys[i]) != CStr(keys[j]) {
        LessTrichotomy(fields[i].key, fields[j].key);
      }
      forall i | 0 <= i < |values| ensures DistinctKeys(values[i]) {
        WritableKeysDistinct(fields[i].value);
      }
    case Arr(items) =>
      UbjTreeWriter.ItemsSyntaxAt(items);
      var elems := Meanings(Mixed, ItemsSyntax(items));
      ArrayMeaning(items);
      forall i | 0 <= i < |elems| ensures DistinctKeys(elems[i]) {
        WritableKeysDistinct(items[i]);
      }
    case _ =>
  }

  lemma ObjectMeaning(fields: seq<Field>)
    requires Writable(Obj(fields))
    ensures var es := FieldsSyntax(fields);
            Meaning(Syntax(Obj(fields))) == DObj(Mixed, Keys(es), EntryMeanings(Mixed, es))
  {
    assert Syntax(Obj(fields)) == WObj(MixedHeader(|fields|), FieldsSyntax(fields));
  }

  lemma ArrayMeaning(items: seq<Value>)
    requires Writable(Arr(items))
    ensures Meaning(Syntax(Arr(items))) == DArr(Mixed, Meanings(Mixed, ItemsSyntax(items)))
  {
    assert Syntax(Arr(items)) == WArr(MixedHeader(|items|), ItemsSyntax(items));
  }

  /** Typed buffers of every element size: what the writer swaps block by block is what the bulk
      read swaps back, so the array in memory is restored. */
  method BufferRoundTrip(elem: Type, memory: bytes, count: uint32, suffix: bytes)
      returns (back: Dyn, end: nat)
    requires ElementSize(TypeSize(elem)) && count > 0 && |memory| == TypeSize(elem) * count
    ensures back == DRaw(elem, count, memory) && end == |Tagged(BufferSyntax(elem, memory, count))|
  {
    hide HostOrder, HeaderBytes, Meaning, WellFormed, Tagged;
    var writer := new UbjWriter.Context();
    var _ := writer.WriteBuffer(elem, memory, count);
    ghost var w := BufferSyntax(elem, memory, count);
    BufferFacts(elem, memory, count);
    assert writer.output == Tagged(w);
    var reader := new UbjReader.Context(writer.output + suffix);
    back := reader.ReadDynamic(w, suffix);
    end := reader.pos;
  }

  ghost function BufferSyntax(elem: Type, memory: bytes, count: uint32): Wire {
    WRaw(Header(elem, Some(MinNum(count))), HostOrder(elem, memory))
  }

  lemma BufferFacts(elem: Type, memory: bytes, count: uint32)
    requires ElementSize(TypeSize(elem)) && count > 0 && |memory| == TypeSize(elem) * count
    ensures var w := BufferSyntax(elem, memory, count);
            && WellFormed(w) && Meaning(w) == DRaw(elem, count, memory)
            && Tagged(w) == [OPEN_ARRAY] + HeaderBytes(w.h) + w.data
  {
    hide SwapElements, HeaderBytes;
    var w := BufferSyntax(elem, memory, count);
    SwapInvolution(memory, TypeSize(elem));
    assert WellFormed(w);
    assert Tagged(w) == [OPEN_ARRAY] + Payload(w);
  }
}
