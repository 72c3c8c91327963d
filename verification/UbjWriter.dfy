/** The streaming writer: a context with a 64-slot container stack whose flags decide what each
    call emits, and the recursion over a value tree that drives it. */
module UbjWriter {
  import opened Options
  import opened Bytes
  import opened UbjSyntax
  import opened UbjValue

  const CONTAINER_STACK_MAX: nat := 64
  const BUFFER_OUT_SIZE: nat := 1024

  /** One stack slot: the flag bits, the element type and the elements still owed. */
  datatype Container = Container(
    sized: bool, typed: bool, isArray: bool, isObject: bool, expectsKey: bool,
    elem: Type, remaining: uint64)

  const ROOT := Container(false, false, false, false, false, Mixed, 0)

  /** The slot after it has been given one element. */
  function AfterElement(c: Container): Container {
    var keyed := if c.isObject then c.(expectsKey := true) else c;
    if c.sized then keyed.(remaining := (c.remaining - 1) % TWO_64) else keyed
  }

  /** The marker of a value of type `t` in a slot: none where a key is expected or the type is given. */
  function Marker(c: Container, ignored: bool, t: Type): bytes {
    if !ignored && ((c.isObject && c.expectsKey) || (c.typed && c.elem == t)) then [] else [TagOf(t)]
  }

  /** The slot after a marker: a value where a key is expected is not counted. */
  function AfterMarker(c: Container, ignored: bool): Container {
    if ignored || (c.isObject && c.expectsKey) then c else AfterElement(c)
  }

  /** A slot for `count` elements that are written with their markers. */
  function Opened(isObject: bool, elem: Type, count: uint64): Container {
    Container(count != 0, !elem.Mixed?, !isObject, isObject, isObject, elem, count)
  }

  /** The slot may be given a value with its own marker: an object has just been given a key. */
  predicate TakesValue(c: Container) {
    !c.typed && (c.isObject ==> !c.expectsKey)
  }

  function Closing(c: Container): bytes {
    if c.sized then [] else if c.isArray then [CLOSE_ARRAY]
    else if c.isObject then [CLOSE_OBJECT] else []
  }

  class Context {
    const stack: array<Container>
    var head: nat
    var ignoreContainerFlags: bool
    var output: bytes
    var totalWritten: nat

    ghost predicate Valid()
      reads this
    {
      stack.Length == CONTAINER_STACK_MAX && head < CONTAINER_STACK_MAX
      && totalWritten == |output|
    }

    /** Between calls the length-integer switch is off. */
    ghost predicate Ready()
      reads this
    {
      Valid() && !ignoreContainerFlags
    }

    constructor ()
      ensures Ready() && fresh(this) && fresh(stack)
      ensures head == 0 && output == [] && stack[0] == ROOT
    {
      stack := new Container[CONTAINER_STACK_MAX](_ => ROOT);
      head := 0;
      ignoreContainerFlags := false;
      output := [];
      totalWritten := 0;
    }

    method Append(a: byte)
      requires Valid()
      modifies this`output, this`totalWritten
      ensures Valid() && output == old(output) + [a]
    {
      totalWritten := totalWritten + 1;
      output := output + [a];
    }

    method Write(data: bytes)
      requires Valid()
      modifies this`output, this`totalWritten
      ensures Valid() && output == old(output) + data
    {
      totalWritten := totalWritten + |data|;
      output := output + data;
    }

    method FinishContainer(c: Container)
      requires Valid()
      modifies this`output, this`totalWritten
      ensures Valid() && output == old(output) + Closing(c)
    {
      if c.sized {
        // elements still owed would be an error
      } else if c.isArray {
        Append(CLOSE_ARRAY);
      } else if c.isObject {
        Append(CLOSE_OBJECT);
      }
    }

    /** A push beyond the last slot is silently dropped. */
    method Push(c: Container)
      requires Valid()
      modifies this`head, stack
      ensures Valid()
      ensures old(head) + 1 < 64 ==>
                head == old(head) + 1 && stack[..] == old(stack[..])[head := c]
      ensures old(head) + 1 >= 64 ==> head == old(head) && stack[..] == old(stack[..])
    {
      var height := head + 1;
      if height < CONTAINER_STACK_MAX {
        head := head + 1;
        stack[head] := c;
      }
    }

    method Pop() returns (c: Container)
      requires Valid() && head > 0
      modifies this`head
      ensures Valid() && head == old(head) - 1 && c == stack[old(head)]
    {
      c := stack[head];
      head := head - 1;
    }

    /** Emits a value's marker unless the container gives it, and counts the element. While
        length integers are written the container is left alone. */
    method TagPublic(t: Type)
      requires Valid()
      modifies this`output, this`totalWritten, stack
      ensures Valid()
      ensures ignoreContainerFlags ==> stack[..] == old(stack[..]) && output == old(output) + [TagOf(t)]
      ensures !ignoreContainerFlags ==>
                var c := old(stack[head]);
                if c.isObject && c.expectsKey then
                  stack[..] == old(stack[..]) && output == old(output)
                else
                  && stack[..] == old(stack[..])[head := AfterElement(c)]
                  && output == old(output) + (if c.typed && c.elem == t then [] else [TagOf(t)])
    {
      if !ignoreContainerFlags {
        if stack[head].isObject {
          if stack[head].expectsKey {
            return;
          }
          stack[head] := stack[head].(expectsKey := true);
        }
        if stack[head].sized {
          stack[head] := stack[head].(remaining := (stack[head].remaining - 1) % TWO_64);
        }
        if stack[head].typed && stack[head].elem == t {
          return;
        }
      }
      Append(TagOf(t));
    }

    /** A marker in front of a value the current container takes. */
    method Tag(t: Type)
      requires Ready() && TakesValue(stack[head])
      modifies this`output, this`totalWritten, stack
      ensures Ready() && output == old(output) + [TagOf(t)]
      ensures stack[..] == old(stack[..])[head := AfterElement(old(stack[head]))]
    {
      TagPublic(t);
    }

    method WriteRawInt(t: Type, n: int)
      requires Valid() && InRange(t, n)
      modifies this`output, this`totalWritten
      ensures Valid() && output == old(output) + IntBytes(t, n)
    {
      if t.Int8? || t.UInt8? {
        Append(Unsigned(n, 256) as byte);
      } else {
        Write(IntBytes(t, n));
      }
    }

    /** Any integer, with the narrowest marker or without one if the container gives it. A length or
        count, written while the container flags are ignored, is never counted as an element. */
    method WriteInteger(n: int64)
      requires Valid() && n > -0x8000_0000_0000_0000
      modifies this`output, this`totalWritten, stack
      ensures Valid()
      ensures var t := MinIntegerType(n);
              output == old(output) + Marker(old(stack[head]), ignoreContainerFlags, t) + IntBytes(t, n)
      ensures stack[..] == old(stack[..])[head := AfterMarker(old(stack[head]), ignoreContainerFlags)]
      ensures ignoreContainerFlags && 0 <= n < TWO_32 ==>
                output == old(output) + TaggedNum(MinNum(n)) && stack[..] == old(stack[..])
    {
      var t := MinIntegerType(n);
      TagPublic(t);
      WriteRawInt(t, n);
    }

    method WriteRawString(s: bytes)
      requires Ready() && |s| < TWO_32
      modifies this`output, this`totalWritten, this`ignoreContainerFlags, stack
      ensures Ready() && stack[..] == old(stack[..])
      ensures output == old(output) + TaggedNum(MinNum(|CStr(s)|)) + CStr(s)
    {
      var n := |CStr(s)|;
      ignoreContainerFlags := true;
      WriteInteger(n);
      ignoreContainerFlags := false;
      Write(s[..n]);
    }

    /** Writes the optional type and count of a container and returns its slot. */
    method BeginContainer(elem: Type, count: uint32, isObject: bool) returns (c: Container)
      requires Ready()
      modifies this`output, this`totalWritten, this`ignoreContainerFlags, stack
      ensures Ready() && stack[..] == old(stack[..])
      ensures c == Opened(isObject, elem, count)
      ensures output == old(output)
                + HeaderBytes(Header(elem, if count == 0 then None else Some(MinNum(count))))
    {
      hide TaggedNum, MinNum, TagOf, Marker, AfterMarker, IntBytes, MinIntegerType;
      c := Container(false, false, false, false, false, elem, count);
      if !elem.Mixed? {
        Append(TYPE_MARK);
        Append(TagOf(elem));
        c := c.(typed := true);
      }
      if count != 0 {
        Append(COUNT_MARK);
        ignoreContainerFlags := true;
        WriteInteger(count);
        ignoreContainerFlags := false;
        c := c.(sized := true, remaining := count);
      }
      c := if isObject then c.(expectsKey := true, isObject := true) else c.(isArray := true);
    }

    /** Opens a container in the current one, which counts it as an element. Beyond the last slot the
        header is written all the same. */
    method Begin(isObject: bool, elem: Type, count: uint32)
      requires Ready() && TakesValue(stack[head])
      modifies this`head, this`output, this`totalWritten, this`ignoreContainerFlags, stack
      ensures Ready() && head == (if old(head) + 1 < CONTAINER_STACK_MAX then old(head) + 1 else old(head))
      ensures var counted := old(stack[..])[old(head) := AfterElement(old(stack[head]))];
              stack[..] == if head == old(head) then counted else counted[head := Opened(isObject, elem, count)]
      ensures output == old(output) + [if isObject then OPEN_OBJECT else OPEN_ARRAY]
                + HeaderBytes(Header(elem, if count == 0 then None else Some(MinNum(count))))
    {
      Tag(if isObject then Object else Array);
      var c := BeginContainer(elem, count, isObject);
      Push(c);
    }

    method WriteKey(key: bytes)
      requires Ready() && |key| < TWO_32
      modifies this`output, this`totalWritten, this`ignoreContainerFlags, stack
      ensures Ready()
      ensures var c := old(stack[head]);
              if c.isObject && c.expectsKey then
                && output == old(output) + TaggedNum(MinNum(|CStr(key)|)) + CStr(key)
                && stack[..] == old(stack[..])[head := c.(expectsKey := false)]
              else output == old(output) && stack[..] == old(stack[..])
    {
      if stack[head].expectsKey && stack[head].isObject {
        WriteRawString(key);
        stack[head] := stack[head].(expectsKey := !stack[head].expectsKey);
      }
    }

    method End() returns (closed: Container)
      requires Ready() && head > 0
      modifies this`head, this`output, this`totalWritten
      ensures Ready() && head == old(head) - 1 && closed == stack[old(head)]
      ensures output == old(output) + Closing(closed)
    {
      closed := Pop();
      FinishContainer(closed);
    }

    /** The 64th container, empty, inside 63 open ones: its end takes the slot of the one around it and
        writes the closing mark of that, which is none if that is counted. */
    method BeginEndAtLimit(isObject: bool, elem: Type) returns (closed: Container)
      requires Ready() && TakesValue(stack[head]) && head == CONTAINER_STACK_MAX - 1
      modifies this`head, this`output, this`totalWritten, this`ignoreContainerFlags, stack
      ensures Ready() && head == old(head) - 1 && closed == AfterElement(old(stack[head]))
      ensures output == old(output) + [if isObject then OPEN_OBJECT else OPEN_ARRAY]
                + HeaderBytes(Header(elem, None)) + (if old(stack[head]).sized then [] else Closing(closed))
    {
      hide HeaderBytes;
      Begin(isObject, elem, 0);
      closed := End();
    }

    /** Writes host-order elements in big-endian order, one 1024-byte block at a time. */
    method WriteByteSwap(data: bytes, sz: nat, count: nat)
      requires Valid() && (sz == 2 || sz == 4 || sz == 8) && |data| == sz * count
      modifies this`output, this`totalWritten
      ensures Valid() && output == old(output) + SwapElements(data, sz)
    {
      hide SwapElements;
      assert SwapElements([], sz) == [] by { EmptySwap(sz); }
      var i := 0;
      ghost var blocks := 0;
      while i < |data|
        invariant Valid() && i == BUFFER_OUT_SIZE * blocks
        invariant output == old(output) + SwapElements(data[..Min(i, |data|)], sz)
        decreases |data| - i
      {
        var npass := Min(|data| - i, BUFFER_OUT_SIZE);
        BlockStep(data, sz, count, i, npass, blocks);
        WriteBlock(data[i..i + npass], sz, npass / sz);
        i := i + BUFFER_OUT_SIZE;
        blocks := blocks + 1;
      }
      assert data[..|data|] == data;
    }

    method WriteBlock(block: bytes, sz: nat, n: nat)
      requires Valid() && (sz == 2 || sz == 4 || sz == 8)
      requires |block| == sz * n <= BUFFER_OUT_SIZE
      modifies this`output, this`totalWritten
      ensures Valid() && output == old(output) + SwapElements(block, sz)
    {
      var buf := new byte[BUFFER_OUT_SIZE](_ => 0);
      for k := 0 to |block|
        invariant Valid() && output == old(output) && buf[..k] == block[..k]
      {
        buf[k] := block[k];
      }
      assert buf[..|block|] == block;
      BufEndianSwap(buf, sz, n);
      assert buf[..|block|] == SwapElements(block, sz);
      Write(buf[..|block|]);
    }

    /** A typed buffer: one container holding `count` raw elements. */
    method WriteBuffer(elem: Type, data: bytes, count: uint32) returns (closed: Container)
      requires Ready() && TakesValue(stack[head]) && head + 1 < CONTAINER_STACK_MAX
      requires ElementSize(TypeSize(elem)) && |data| == TypeSize(elem) * count
      modifies this`head, this`output, this`totalWritten, this`ignoreContainerFlags, stack
      ensures Ready() && head == old(head)
      ensures forall k :: 0 <= k < head ==> stack[k] == old(stack[k])
      ensures stack[head] == AfterElement(old(stack[head]))
      ensures output == old(output) + [OPEN_ARRAY]
                + HeaderBytes(Header(elem, if count == 0 then None else Some(MinNum(count))))
                + HostOrder(elem, data) + (if count == 0 then [CLOSE_ARRAY] else [])
    {
      var typesz := TypeSize(elem);
      Begin(false, elem, count);
      if typesz == 1 {
        SwapSize1(data);
        Write(data);
      } else {
        WriteByteSwap(data, typesz, count);
      }
      closed := End();
    }

    /** A typed array of strings or high-precision numbers, each written raw behind the header. */
    method WriteStringBuffer(elem: Type, strings: seq<bytes>) returns (closed: Container)
      requires Ready() && TakesValue(stack[head]) && head + 1 < CONTAINER_STACK_MAX
      requires (elem.String? || elem.HighPrecision?) && |strings| < TWO_32
      requires forall i :: 0 <= i < |strings| ==> |strings[i]| < TWO_32
      modifies this`head, this`output, this`totalWritten, this`ignoreContainerFlags, stack
      ensures Ready() && head == old(head)
      ensures forall k :: 0 <= k < head ==> stack[k] == old(stack[k])
      ensures stack[head] == AfterElement(old(stack[head]))
      ensures var count := |strings|;
              output == old(output) + [OPEN_ARRAY]
                + HeaderBytes(Header(elem, if count == 0 then None else Some(MinNum(count))))
                + Elems(elem, StringWires(elem, strings)) + (if count == 0 then [CLOSE_ARRAY] else [])
    {
      hide HeaderBytes, TaggedNum, MinNum, CStr, StringWires, Elems;
      Begin(false, elem, |strings|);
      WriteRawStrings(elem, strings);
      closed := End();
    }

    method WriteRawStrings(ghost elem: Type, strings: seq<bytes>)
      requires Ready() && (elem.String? || elem.HighPrecision?)
      requires forall i :: 0 <= i < |strings| ==> |strings[i]| < TWO_32
      modifies this`output, this`totalWritten, this`ignoreContainerFlags, stack
      ensures Ready() && stack[..] == old(stack[..])
      ensures output == old(output) + Elems(elem, StringWires(elem, strings))
    {
      hide TaggedNum, MinNum, CStr, StringWires;
      ghost var start, wires := output, StringWires(elem, strings);
      assert wires[0..] == wires;
      hide Elems;
      var i := 0;
      while i < |strings|
        invariant i <= |strings| && Ready() && stack[..] == old(stack[..])
        invariant WellFormedElems(elem, wires[i..])
        invariant output + Elems(elem, wires[i..]) == start + Elems(elem, wires)
      {
        NextString(elem, strings, i);
        WriteRawString(strings[i]);
        i := i + 1;
      }
      assert wires[|strings|..] == [];
      assert Elems(elem, []) == [] by { NoStrings(elem); }
    }
  }

  /** The syntax of the strings of a typed array. */
  function StringWires(elem: Type, strings: seq<bytes>): (ws: seq<Wire>)
    requires (elem.String? || elem.HighPrecision?) && forall i :: 0 <= i < |strings| ==> |strings[i]| < TWO_32
    ensures |ws| == |strings| && WellFormedElems(elem, ws)
  {
    seq(|strings|, i requires 0 <= i < |strings| => WStr(elem, MinNum(|CStr(strings[i])|), CStr(strings[i])))
  }

  lemma NoStrings(elem: Type)
    ensures Elems(elem, []) == []
  {}

  lemma NextString(elem: Type, strings: seq<bytes>, i: nat)
    requires (elem.String? || elem.HighPrecision?) && i < |strings|
    requires forall k :: 0 <= k < |strings| ==> |strings[k]| < TWO_32
    ensures var ws := StringWires(elem, strings);
            && WellFormedElems(elem, ws[i..]) && WellFormedElems(elem, ws[i + 1..])
            && Elems(elem, ws[i..])
               == TaggedNum(MinNum(|CStr(strings[i])|)) + CStr(strings[i]) + Elems(elem, ws[i + 1..])
  {
    hide TaggedNum, MinNum, CStr;
    var ws := StringWires(elem, strings);
    assert ws[i..][0] == ws[i] && ws[i..][1..] == ws[i + 1..];
    assert FitsElement(elem, ws[i]) && WellFormed(ws[i]) && ws[i].WStr?;
    assert Payload(ws[i]) == TaggedNum(ws[i].len) + ws[i].chars;
    assert Element(elem, ws[i]) == Payload(ws[i]);
    assert Elems(elem, ws[i..]) == Element(elem, ws[i]) + Elems(elem, ws[i + 1..]);
  }

  lemma EmptySwap(sz: nat)
    requires sz > 0
    ensures SwapElements([], sz) == []
  {}

  /** A block boundary is an element boundary, so swapping block by block is swapping the whole. */
  lemma BlockStep(data: bytes, sz: nat, count: nat, i: nat, npass: nat, blocks: nat)
    requires sz == 2 || sz == 4 || sz == 8
    requires |data| == sz * count && i < |data|
    requires i == BUFFER_OUT_SIZE * blocks && npass == Min(|data| - i, BUFFER_OUT_SIZE)
    ensures npass == sz * (npass / sz) && i + npass == Min(i + BUFFER_OUT_SIZE, |data|)
    ensures SwapElements(data[..i], sz) + SwapElements(data[i..i + npass], sz)
         == SwapElements(data[..i + npass], sz)
  {
    var per := BUFFER_OUT_SIZE / sz;
    PassAligned(|data|, sz, per, count, i, npass, blocks);
    SwapAppend(data[..i], data[i..i + npass], sz, per * blocks);
    assert data[..i] + data[i..i + npass] == data[..i + npass];
  }

  lemma PassAligned(len: nat, sz: nat, per: nat, count: nat, i: nat, npass: nat, blocks: nat)
    requires sz > 0 && sz * per == BUFFER_OUT_SIZE
    requires len == sz * count && i < len
    requires i == BUFFER_OUT_SIZE * blocks && npass == Min(len - i, BUFFER_OUT_SIZE)
    ensures npass == sz * (npass / sz) && i == sz * (per * blocks)
  {
    assert (sz * per) * blocks == sz * (per * blocks);
    var m := if npass < BUFFER_OUT_SIZE then count - per * blocks else per;
    assert npass == m * sz by { assert sz * (count - per * blocks) == sz * count - sz * (per * blocks); }
    if m < 0 { MulAtLeast(-m, sz); }
    DivModUnique(npass, sz, m, 0);
  }
}
