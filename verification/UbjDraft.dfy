/** The bytes of a value spelled out: markers as characters, numbers byte by byte, sizes with their own
    markers. A second definition of what is written, which shares nothing with the writer's. */
module UbjDraft {
  import opened Bytes
  import opened UbjValue

  /** A number in two's complement with the given count of bytes, most significant first. */
  function Bytes4(n: int): (r: bytes)
    requires -0x8000_0000 <= n < 0x8000_0000
    ensures |r| == 4
  {
    var u := if n < 0 then n + 0x1_0000_0000 else n;
    Unsigned4(u)
  }

  function Unsigned4(u: int): (r: bytes)
    requires 0 <= u < 0x1_0000_0000
    ensures |r| == 4
  {
    [(u / 0x100_0000) as byte, (u / 0x1_0000 % 0x100) as byte, (u / 0x100 % 0x100) as byte, (u % 0x100) as byte]
  }

  function Unsigned8(u: int): (r: bytes)
    requires 0 <= u < 0x1_0000_0000_0000_0000
    ensures |r| == 8
  {
    [(u / 0x100_0000_0000_0000) as byte, (u / 0x1_0000_0000_0000 % 0x100) as byte,
     (u / 0x100_0000_0000 % 0x100) as byte, (u / 0x1_0000_0000 % 0x100) as byte,
     (u / 0x100_0000 % 0x100) as byte, (u / 0x1_0000 % 0x100) as byte,
     (u / 0x100 % 0x100) as byte, (u % 0x100) as byte]
  }

  function Bytes8(n: int): (r: bytes)
    requires -0x8000_0000_0000_0000 <= n < 0x8000_0000_0000_0000
    ensures |r| == 8
  {
    var u := if n < 0 then n + 0x1_0000_0000_0000_0000 else n;
    Unsigned8(u)
  }

  /** A size or count: i up to 127, U up to 255, I up to 32767, l up to 2147483647, L beyond. */
  function SizeBytes(n: nat): bytes
    requires n < 0x1_0000_0000
  {
    if n < 128 then Ascii("i") + [n as byte]
    else if n < 256 then Ascii("U") + [n as byte]
    else if n < 32768 then Ascii("I") + [(n / 256) as byte, (n % 256) as byte]
    else if n < 2147483648 then Ascii("l") + Bytes4(n)
    else Ascii("L") + Bytes8(n)
  }

  /** Containers give their count, but an empty one has a closing mark instead. */
  function Draft(v: Value): bytes
    requires Writable(v)
    decreases v, 0
  {
    match v
    case Null => Ascii("Z")
    case Bool(b) => if b then Ascii("T") else Ascii("F")
    case I32(i) => Ascii("l") + Bytes4(i)
    case I64(l) => Ascii("L") + Bytes8(l)
    case F32(f) => Ascii("d") + Unsigned4(f)
    case F64(d) => Ascii("D") + Unsigned8(d)
    case Str(s) => Ascii("S") + SizeBytes(|CStr(s)|) + CStr(s)
    case Obj(fields) => if fields == [] then Ascii("{}") else Ascii("{#") + SizeBytes(|fields|) + DraftFields(fields)
    case Arr(items) => if items == [] then Ascii("[]") else Ascii("[#") + SizeBytes(|items|) + DraftItems(items)
    case Buf(data) => if data == [] then Ascii("[]") else Ascii("[$i#") + SizeBytes(|data|) + data
  }

  function DraftItems(items: seq<Value>): bytes
    requires WritableItems(items)
    decreases items, 1
  {
    if items == [] then [] else Draft(items[0]) + DraftItems(items[1..])
  }

  function DraftFields(fields: seq<Field>): bytes
    requires WritableFields(fields)
    decreases fields, 1
  {
    if fields == [] then []
    else SizeBytes(|fields[0].key|) + fields[0].key + Draft(fields[0].value) + DraftFields(fields[1..])
  }

  lemma DraftIs(v: Value)
    requires Writable(v)
    ensures v.Obj? ==> Draft(v) == if v.fields == [] then Ascii("{}")
                                   else Ascii("{#") + SizeBytes(|v.fields|) + DraftFields(v.fields)
    ensures v.Arr? ==> Draft(v) == if v.items == [] then Ascii("[]")
                                   else Ascii("[#") + SizeBytes(|v.items|) + DraftItems(v.items)
    ensures v.Buf? ==> Draft(v) == if v.data == [] then Ascii("[]")
                                   else Ascii("[$i#") + SizeBytes(|v.data|) + v.data
    ensures DraftFields([]) == [] && DraftItems([]) == []
  {
    hide SizeBytes, Ascii;
  }

  /** An array of one truth value. */
  lemma TruthExample(b: bool)
    ensures Writable(Arr([Bool(b)]))
    ensures Draft(Arr([Bool(b)])) == [0x5B, 0x23, 0x69, 0x01, if b then 0x54 else 0x46]
  {
    var items := [Bool(b)];
    assert Writable(items[0]) && WritableItems(items);
    assert SizeBytes(1) == [0x69, 0x01] && Ascii("[#") == [0x5B, 0x23];
    assert Draft(items[0]) == [if b then 0x54 else 0x46];
    hide SizeBytes, Ascii, Draft;
    assert items[1..] == [];
    assert DraftItems(items) == Draft(items[0]) + DraftItems([]);
    assert Draft(Arr(items)) == Ascii("[#") + SizeBytes(1) + DraftItems(items) by { DraftIs(Arr(items)); }
  }

  /** An object of one number. */
  lemma NumberExample()
    ensures Draft(Obj([Field([0x61], I32(-2))])) ==
              [0x7B, 0x23, 0x69, 0x01, 0x69, 0x01, 0x61, 0x6C, 0xFF, 0xFF, 0xFF, 0xFE]
  {
    var fields := [Field([0x61], I32(-2))];
    assert SizeBytes(1) == [0x69, 0x01] && Ascii("{#") == [0x7B, 0x23];
    assert Draft(fields[0].value) == [0x6C, 0xFF, 0xFF, 0xFF, 0xFE];
    hide SizeBytes, Ascii, Draft;
    assert fields[1..] == [];
    assert DraftFields(fields) == SizeBytes(1) + fields[0].key + Draft(fields[0].value) + DraftFields([]);
    assert Draft(Obj(fields)) == Ascii("{#") + SizeBytes(1) + DraftFields(fields) by { DraftIs(Obj(fields)); }
  }
}
