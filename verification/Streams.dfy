/** Packet streams on values: a sender cuts its data into packets, a receiver puts them back.
    All 32-bit arithmetic is modulo 2^32, as in the code. */
module Streams {
  import opened Options
  import opened Bytes
  import opened Ctr
  import opened Aes

  const MAX_PACKET_BODY: nat := 65536
  /** The largest stream whose receive buffer size does not wrap. */
  const MAX_STREAM: nat := 65535 * MAX_PACKET_BODY

  datatype Status = Idle | Completed | Error

  /** A buffer stream travels as it is; a resource stream is encrypted packet by packet by one
      running counter. */
  datatype Key = Plain | Keyed(e: BlockCipher, ctr: Counter) {
    function Apply(body: bytes): bytes {
      if Plain? then body else Crypt(e, ctr, body)
    }

    function After(n: nat): Key {
      if Plain? then Plain else Keyed(e, Advance(ctr, Blocks(n)))
    }
  }

  datatype Packet = Packet(streamId: uint32, streamType: nat, part: uint32, parts: uint32, body: bytes)

  datatype Sender = Sender(
    id: uint32, streamType: nat, data: bytes, key: Key, part: uint32, parts: uint32, status: Status)

  datatype Receiver = Receiver(
    id: uint32, streamType: nat, part: uint32, parts: uint32,
    buffer: bytes, received: uint32, key: Key, status: Status)

  function Zeros(n: nat): (r: bytes)
    ensures |r| == n
  {
    seq(n, _ => 0)
  }

  /** Bytes a positioned access of a buffer touches. */
  function Clamp(len: nat, offset: nat, size: nat): (n: nat)
    ensures (offset + n <= len || n == 0) && n <= size
  {
    if offset < len then Min(size, len - offset) else 0
  }

  // ----- sending -----

  function PartCount(size: uint32): uint32 {
    if size == 0 then 0
    else if size < MAX_PACKET_BODY then 1
    else size / MAX_PACKET_BODY + (if size % MAX_PACKET_BODY != 0 then 1 else 0)
  }

  type Data = d: bytes | |d| < TWO_32

  function NewSender(id: uint32, streamType: nat, data: Data, key: Key): Sender {
    Sender(id, streamType, data, key, 0, PartCount(|data|), Idle)
  }

  datatype Sent = Sent(next: Sender, packet: Option<Packet>, ok: bool)

  function BytesToSend(size: uint32, bytesSent: uint32): (n: uint32)
    ensures n <= MAX_PACKET_BODY
  {
    if size > 0 && Wrap(size - bytesSent) < MAX_PACKET_BODY then Wrap(size - bytesSent)
    else MAX_PACKET_BODY
  }

  /** The body of the next packet before encryption: a buffer stream sends what it could read, a
      resource stream always the asked number of bytes, zero-filled (a whole body when none are
      left). */
  function Content(s: Sender): bytes
    requires |s.data| < TWO_32
  {
    var bytesSent := Wrap(s.part * MAX_PACKET_BODY);
    var bytesToSend := BytesToSend(|s.data|, bytesSent);
    var asked := if s.key.Keyed? && bytesToSend == 0 then MAX_PACKET_BODY else bytesToSend;
    var n := Clamp(|s.data|, bytesSent, asked);
    var read := if n == 0 then [] else s.data[bytesSent..bytesSent + n];
    if s.key.Plain? then read else read + Zeros(asked - n)
  }

  /** The body a sender finds in its zero-filled buffer after asking for bytes of the source. */
  lemma ContentIs(s: Sender, asked: nat, n: nat, filled: bytes)
    requires |s.data| < TWO_32
    requires var bytesSent := Wrap(s.part * MAX_PACKET_BODY);
             var bytesToSend := BytesToSend(|s.data|, bytesSent);
             && asked == (if s.key.Keyed? && bytesToSend == 0 then MAX_PACKET_BODY else bytesToSend)
             && n == Clamp(|s.data|, bytesSent, asked)
             && filled == (if n == 0 then [] else s.data[bytesSent..bytesSent + n]) + Zeros(asked - n)
    ensures n <= |filled| == asked && Content(s) == if s.key.Plain? then filled[..n] else filled
  {}

  /** One call: nothing to read from an empty buffer is an error, an empty body is no packet. */
  function Send(s: Sender): Sent
    requires |s.data| < TWO_32
  {
    if s.data == [] then Sent(s.(status := Error), None, false) else Emitted(s, Content(s))
  }

  function Emitted(s: Sender, body: bytes): Sent {
    var next := if body == [] then s else s.(part := Wrap(s.part + 1), key := s.key.After(|body|));
    var packet := if body == [] then None
                  else Some(Packet(s.id, s.streamType, Wrap(s.part + 1), s.parts, s.key.Apply(body)));
    var done := s.parts > 0 && next.part == s.parts;
    Sent(if done then next.(status := Completed) else next, packet, true)
  }

  // ----- receiving -----

  function NewReceiver(p: Packet, key: Key): Receiver {
    Receiver(p.streamId, p.streamType, p.part, p.parts,
             Zeros(Wrap(p.parts * MAX_PACKET_BODY)), 0, key, Idle)
  }

  datatype Received = Received(next: Receiver, ok: bool)

  /** Only a first part or the successor of the last part is accepted; a resource packet is
      decrypted with the running counter before it is stored. */
  function Receive(r: Receiver, p: Packet): (res: Received)
    ensures |res.next.buffer| == |r.buffer| && res.next.id == r.id && res.next.parts == r.parts
  {
    if p.part > 1 && p.part != Wrap(r.part + 1) then Received(r, false)
    else Store(r.(key := r.key.After(|p.body|)), p.(body := r.key.Apply(p.body)))
  }

  function Store(r: Receiver, p: Packet): (res: Received)
    ensures |res.next.buffer| == |r.buffer| && res.next.id == r.id && res.next.parts == r.parts
  {
    if r.buffer == [] then Received(r.(status := Error), false)
    else
      var offset := Wrap(Wrap(p.part - 1) * MAX_PACKET_BODY);
      var n := Clamp(|r.buffer|, offset, |p.body|);
      var buffer := if n == 0 then r.buffer else Overwrite(r.buffer, offset, p.body[..n]);
      Received(r.(buffer := buffer, received := Wrap(r.received + |p.body|), part := p.part,
                  status := if p.part == r.parts then Completed else r.status), true)
  }

  /** A packet is taken by a receiver with a buffer if it is a first one or the next one. Its body then
      lies at its part's place, as far as the buffer reaches, and the rest of the buffer is as before. */
  lemma ReceiveIs(r: Receiver, p: Packet)
    requires p.part >= 1 && (p.part - 1) * 65536 < TWO_32
    ensures var res, body, at := Receive(r, p), r.key.Apply(p.body), (p.part - 1) * 65536;
            && (res.ok <==> r.buffer != [] && (p.part == 1 || p.part == Wrap(r.part + 1)))
            && (res.ok ==> res.next.part == p.part && (res.next.status.Completed? <==>
                                                       p.part == r.parts || r.status.Completed?))
            && (res.ok ==> forall k :: 0 <= k < |r.buffer| ==>
                  res.next.buffer[k] == if at <= k < at + |body| then body[k - at] else r.buffer[k])
  {
    hide Key.Apply, Key.After;
    ApplyLength(r.key, p.body);
    assert Wrap(p.part - 1) == p.part - 1 && Wrap((p.part - 1) * 65536) == (p.part - 1) * 65536;
  }

  /** A new receiver has the packet's ids and a zero-filled buffer for all parts, if 32 bits can say so. */
  lemma NewReceiverIs(p: Packet, key: Key)
    requires p.parts * 65536 < TWO_32
    ensures var r := NewReceiver(p, key);
            && r.id == p.streamId && r.streamType == p.streamType && r.parts == p.parts && r.part == p.part
            && r.key == key && r.received == 0 && !r.status.Completed?
            && |r.buffer| == p.parts * 65536 && forall k :: 0 <= k < |r.buffer| ==> r.buffer[k] == 0
  {}

  // ----- a stream and its packets -----

  datatype Stream = Stream(id: uint32, streamType: nat, data: Data, key: Key)

  function Start(st: Stream): Sender {
    NewSender(st.id, st.streamType, st.data, st.key)
  }

  function Parts(st: Stream): uint32 {
    PartCount(|st.data|)
  }

  /** Bytes of the first `k` parts. */
  function Upto(st: Stream, k: nat): nat {
    Min(k * MAX_PACKET_BODY, |st.data|)
  }

  function Slice(st: Stream, k: nat): bytes
    requires k >= 1
  {
    assert (k - 1) * MAX_PACKET_BODY <= k * MAX_PACKET_BODY;
    st.data[Upto(st, k - 1)..Upto(st, k)]
  }

  /** The key after `k` parts. */
  function KeyAt(st: Stream, k: nat): Key {
    st.key.After(Upto(st, k))
  }

  function PacketOf(st: Stream, k: nat): Packet
    requires 1 <= k < TWO_32
  {
    Packet(st.id, st.streamType, k, Parts(st), KeyAt(st, k - 1).Apply(Slice(st, k)))
  }

  /** The sender after `k` packets. */
  function SenderAt(st: Stream, k: nat): Sender
    requires k < TWO_32
  {
    Sender(st.id, st.streamType, st.data, KeyAt(st, k), k, Parts(st),
           if k == Parts(st) && k > 0 then Completed else Idle)
  }

  /** The receiver after `k` packets of a stream, in order. */
  function ReceiverAt(st: Stream, k: nat): Receiver
    requires 1 <= k <= Parts(st) && |st.data| <= MAX_STREAM
  {
    Receiver(st.id, st.streamType, k, Parts(st), Filled(st, k), Upto(st, k), KeyAt(st, k),
             if k == Parts(st) then Completed else Idle)
  }

  function Filled(st: Stream, k: nat): bytes
    requires k <= Parts(st)
  {
    PartBounds(|st.data|);
    st.data[..Upto(st, k)] + Zeros(Parts(st) * MAX_PACKET_BODY - Upto(st, k))
  }

  // ----- arithmetic -----

  /** The part count is the size over the body size, rounded up, and never exceeds 2^16. */
  lemma PartBounds(size: uint32)
    ensures var n := PartCount(size);
            n <= 65536 && size <= n * MAX_PACKET_BODY && (size > 0 ==> (n - 1) * MAX_PACKET_BODY < size)
            && (n <= 65535 <==> size <= MAX_STREAM)
  {}

  lemma KeyAfterAfter(k: Key, a: nat, b: nat)
    requires a % BLOCK_SIZE == 0
    ensures k.After(a).After(b) == k.After(a + b)
  {
    if k.Keyed? {
      BlocksOf(a / BLOCK_SIZE, b);
      BlocksOf(a / BLOCK_SIZE, 0);
      DivModUnique(BLOCK_SIZE - 1, BLOCK_SIZE, 0, BLOCK_SIZE - 1);
      AdvanceAdvance(k.ctr, Blocks(a), Blocks(b));
    }
  }

  /** All parts but the last are full, so the running counter of part `k` is the stream's own. */
  lemma KeyStep(st: Stream, k: nat)
    requires k < Parts(st)
    ensures KeyAt(st, k).After(Upto(st, k + 1) - Upto(st, k)) == KeyAt(st, k + 1)
    ensures Upto(st, k) == k * MAX_PACKET_BODY < |st.data|
  {
    PartBounds(|st.data|);
    DivModUnique(k * MAX_PACKET_BODY, BLOCK_SIZE, k * 4096, 0);
    KeyAfterAfter(st.key, Upto(st, k), Upto(st, k + 1) - Upto(st, k));
  }

  // ----- the sender -----

  lemma StartIsFirst(st: Stream)
    ensures Start(st) == SenderAt(st, 0)
  {
    if st.key.Keyed? {
      DivModUnique(BLOCK_SIZE - 1, BLOCK_SIZE, 0, BLOCK_SIZE - 1);
    }
  }

  /** Every call with a part left succeeds and emits exactly the next packet of the stream; no
      32-bit expression wraps, and the sender completes on the last part. */
  lemma SendStep(st: Stream, k: nat)
    requires k < Parts(st)
    ensures Send(SenderAt(st, k)) == Sent(SenderAt(st, k + 1), Some(PacketOf(st, k + 1)), true)
    ensures 1 <= |PacketOf(st, k + 1).body| <= 65536
    ensures var p := PacketOf(st, k + 1);
            p.streamId == st.id && p.streamType == st.streamType && p.part == k + 1 && p.parts == PartCount(|st.data|)
  {
    hide Key.Apply, Key.After;
    KeyStep(st, k);
    PartBounds(|st.data|);
    var sent := k * MAX_PACKET_BODY;
    assert Wrap(sent) == sent;
    assert BytesToSend(|st.data|, sent) == Upto(st, k + 1) - sent;
    var read := Slice(st, k + 1);
    assert read + Zeros(0) == read;
    ApplyLength(KeyAt(st, k), read);
  }

  lemma ApplyLength(key: Key, body: bytes)
    ensures |key.Apply(body)| == |body|
  {}

  /** The plain slices of the parts are the data, in order and without gap or overlap. */
  lemma SlicesTile(st: Stream)
    ensures Joined(st, Parts(st)) == st.data
  {
    JoinedPrefix(st, Parts(st));
    PartBounds(|st.data|);
    assert st.data[..|st.data|] == st.data;
  }

  function Joined(st: Stream, k: nat): bytes {
    if k == 0 then [] else Joined(st, k - 1) + Slice(st, k)
  }

  lemma {:induction false} JoinedPrefix(st: Stream, k: nat)
    ensures Joined(st, k) == st.data[..Upto(st, k)]
    decreases k
  {
    if k > 0 {
      JoinedPrefix(st, k - 1);
      assert (k - 1) * MAX_PACKET_BODY <= k * MAX_PACKET_BODY;
    }
  }

  function JoinedBodies(st: Stream, k: nat): bytes
    requires k < TWO_32
  {
    if k == 0 then [] else JoinedBodies(st, k - 1) + PacketOf(st, k).body
  }

  /** The bodies of the emitted packets, joined, are the data, for a resource encrypted as one stream. */
  lemma BodiesAreOneStream(st: Stream)
    ensures JoinedBodies(st, Parts(st)) == st.key.Apply(st.data)
  {
    BodiesPrefix(st, Parts(st));
    PartBounds(|st.data|);
    assert st.data[..|st.data|] == st.data;
  }

  lemma {:induction false} BodiesPrefix(st: Stream, k: nat)
    requires k <= Parts(st)
    ensures JoinedBodies(st, k) == st.key.Apply(st.data[..Upto(st, k)])
    decreases k
  {
    if k == 0 {
      assert st.data[..0] == [] && st.key.Apply([]) == [];
    } else {
      hide Upto;
      BodiesPrefix(st, k - 1);
      KeyStep(st, k - 1);
      var head, slice := st.data[..Upto(st, k - 1)], Slice(st, k);
      SlicePrefix(st, k);
      if st.key.Keyed? {
        DivModUnique(|head|, BLOCK_SIZE, (k - 1) * 4096, 0);
        CryptSplit(st.key.e, st.key.ctr, head, slice);
      }
    }
  }

  lemma SlicePrefix(st: Stream, k: nat)
    requires k >= 1
    ensures Upto(st, k - 1) <= Upto(st, k)
    ensures st.data[..Upto(st, k - 1)] + Slice(st, k) == st.data[..Upto(st, k)]
  {
    assert (k - 1) * MAX_PACKET_BODY <= k * MAX_PACKET_BODY;
  }

  /** A byte of the data as it travels: as it is, or combined with the key stream's byte at its place. */
  function ByteSent(key: Key, data: bytes, j: nat): byte
    requires j < |data|
  {
    if key.Plain? then data[j]
    else Xor(data[j], key.e((key.ctr + j / 16) % 0x1_0000_0000_0000_0000_0000_0000_0000_0000)[j % 16])
  }

  /** Byte `i` of part `k` is the byte of the data at its place, as it travels. */
  lemma BodyIs(st: Stream, k: nat, i: nat)
    requires 1 <= k <= Parts(st)
    ensures var size, at := |PacketOf(st, k).body|, (k - 1) * 65536;
            && at + size <= |st.data| && size == (if |st.data| - at < 65536 then |st.data| - at else 65536)
            && (i < size ==> PacketOf(st, k).body[i] == ByteSent(st.key, st.data, at + i))
  {
    hide Key.Apply, Key.After, ByteSent, Slice, Upto, PartCount;
    SliceIs(st, k);
    var at, body := (k - 1) * 65536, Slice(st, k);
    ApplyLength(KeyAt(st, k - 1), body);
    if i < |body| {
      ApplyAt(st.key, st.data, (k - 1) * 4096, body, i);
    }
  }

  lemma SliceIs(st: Stream, k: nat)
    requires 1 <= k <= Parts(st)
    ensures var size, at := |Slice(st, k)|, (k - 1) * 65536;
            && at + size <= |st.data| && size == (if |st.data| - at < 65536 then |st.data| - at else 65536)
            && Slice(st, k) == st.data[at..at + size] && Upto(st, k - 1) == at
  {
    PartBounds(|st.data|);
  }

  lemma ApplyAt(key: Key, data: Data, q: nat, body: bytes, i: nat)
    requires i < |body| && 16 * q + |body| <= |data| && body == data[16 * q..16 * q + |body|]
    ensures |key.After(16 * q).Apply(body)| == |body|
    ensures key.After(16 * q).Apply(body)[i] == ByteSent(key, data, 16 * q + i)
  {
    assert body[i] == data[16 * q + i];
    if key.Keyed? {
      hide Xor, Crypt;
      KeyedByte(key.e, key.ctr, q, body, i);
    }
  }

  lemma KeyedByte(e: BlockCipher, c: Counter, q: nat, body: bytes, i: nat)
    requires i < |body|
    ensures Crypt(e, Advance(c, Blocks(16 * q)), body)[i]
            == Xor(body[i], e((c + (16 * q + i) / 16) % 0x1_0000_0000_0000_0000_0000_0000_0000_0000)[(16 * q + i) % 16])
  {
    hide Xor;
    BlocksOf(q, 0);
    KeyStreamShift(e, c, q, i);
  }

  // ----- the receiver -----

  /** A fresh receiver, made from and fed the first packet. */
  lemma ReceiveFirst(st: Stream)
    requires 1 <= |st.data| <= MAX_STREAM
    ensures Receive(NewReceiver(PacketOf(st, 1), st.key), PacketOf(st, 1)) == Received(ReceiverAt(st, 1), true)
  {
    PartBounds(|st.data|);
    StartIsFirst(st);
    KeyStep(st, 0);
    DecryptPart(st, 1);
    var n := Parts(st) * MAX_PACKET_BODY;
    assert Wrap(n) == n;
    assert Overwrite(Zeros(n), 0, Slice(st, 1)) == Filled(st, 1);
  }

  lemma ReceiveNext(st: Stream, k: nat)
    requires 1 <= k < Parts(st) && |st.data| <= MAX_STREAM
    ensures Receive(ReceiverAt(st, k), PacketOf(st, k + 1)) == Received(ReceiverAt(st, k + 1), true)
  {
    hide Receive, Filled, Overwrite, Key.Apply, Key.After, Slice;
    PartBounds(|st.data|);
    KeyStep(st, k);
    DecryptPart(st, k + 1);
    FilledStep(st, k);
    Accept(ReceiverAt(st, k), PacketOf(st, k + 1), Slice(st, k + 1));
  }

  /** The result of accepting the next part when its bytes fit the buffer. */
  lemma Accept(r: Receiver, p: Packet, body: bytes)
    requires r.key.Apply(p.body) == body && |body| == |p.body| && body != []
    requires 1 <= p.part == r.part + 1 && r.part * MAX_PACKET_BODY + |body| <= |r.buffer| < TWO_32
    requires r.received + |body| < TWO_32
    ensures Receive(r, p) == Received(
              r.(buffer := Overwrite(r.buffer, r.part * MAX_PACKET_BODY, body), received := r.received + |body|,
                 key := r.key.After(|body|), part := p.part,
                 status := if p.part == r.parts then Completed else r.status), true)
  {
    hide Overwrite, Key.Apply, Key.After;
    hide Slice, Filled;
    var offset := r.part * MAX_PACKET_BODY;
    assert Wrap(p.part - 1) == r.part && Wrap(offset) == offset;
    assert body[..|body|] == body && Clamp(|r.buffer|, offset, |body|) == |body|;
  }

  lemma FilledStep(st: Stream, k: nat)
    requires 1 <= k < Parts(st)
    ensures |Filled(st, k)| == Parts(st) * MAX_PACKET_BODY >= Upto(st, k + 1)
    ensures k * MAX_PACKET_BODY + |Slice(st, k + 1)| == Upto(st, k + 1)
    ensures Overwrite(Filled(st, k), k * MAX_PACKET_BODY, Slice(st, k + 1)) == Filled(st, k + 1)
  {
    PartBounds(|st.data|);
    KeyStep(st, k);
    var n := Parts(st) * MAX_PACKET_BODY;
    var at, next := Upto(st, k), Upto(st, k + 1);
    assert Zeros(n - at)[next - at..] == Zeros(n - next);
    assert Filled(st, k)[next..] == Zeros(n - next);
    assert Filled(st, k)[..at] == st.data[..at];
    assert st.data[..at] + Slice(st, k + 1) == st.data[..next];
  }

  /** The receiver's running counter is in step with the sender's. */
  lemma DecryptPart(st: Stream, k: nat)
    requires 1 <= k <= Parts(st)
    ensures KeyAt(st, k - 1).Apply(PacketOf(st, k).body) == Slice(st, k)
    ensures |PacketOf(st, k).body| == Upto(st, k) - Upto(st, k - 1)
    ensures k == 1 ==> KeyAt(st, 0) == st.key
  {
    KeyStep(st, k - 1);
    StartIsFirst(st);
    var key := KeyAt(st, k - 1);
    if key.Keyed? { CryptInvolution(key.e, key.ctr, Slice(st, k)); }
  }

  /** What a completed receiver hands over: its buffer and the byte count. */
  function Delivered(r: Receiver): bytes {
    r.buffer[..Min(r.received, |r.buffer|)]
  }

  lemma CompletedDelivers(st: Stream)
    requires 1 <= |st.data| <= MAX_STREAM
    ensures var r := ReceiverAt(st, Parts(st));
            r.status == Completed && Delivered(r) == st.data && r.received == |st.data|
            && r.buffer == st.data + Zeros(Parts(st) * MAX_PACKET_BODY - |st.data|)
  {
    PartBounds(|st.data|);
    assert st.data[..|st.data|] == st.data;
  }

  // ----- whole transfers -----

  /** The packets of `n` calls on a sender. */
  function Emit(s: Sender, n: nat): seq<Packet>
    requires |s.data| < TWO_32
    decreases n
  {
    if n == 0 then []
    else
      var sent := Send(s);
      (if sent.packet.Some? then [sent.packet.value] else []) + Emit(sent.next, n - 1)
  }

  /** A receiver fed packet after packet, until one is rejected. */
  function Feed(r: Receiver, ps: seq<Packet>): Option<Receiver>
    decreases |ps|
  {
    if ps == [] then Some(r)
    else
      var res := Receive(r, ps[0]);
      if res.ok then Feed(res.next, ps[1..]) else None
  }

  /** What arrives when every packet of a stream reaches a receiver made from the first. */
  function Transfer(st: Stream): Option<bytes> {
    var ps := Emit(Start(st), Parts(st));
    if ps == [] then None
    else
      var r := Feed(NewReceiver(ps[0], st.key), ps);
      if r.Some? && r.value.status.Completed? then Some(Delivered(r.value)) else None
  }

  function PacketsFrom(st: Stream, k: nat): (ps: seq<Packet>)
    requires k <= Parts(st)
    ensures |ps| == Parts(st) - k
    decreases Parts(st) - k
  {
    if k == Parts(st) then [] else [PacketOf(st, k + 1)] + PacketsFrom(st, k + 1)
  }

  lemma {:induction false} EmitsAll(st: Stream, k: nat)
    requires k <= Parts(st)
    ensures Emit(SenderAt(st, k), Parts(st) - k) == PacketsFrom(st, k)
    decreases Parts(st) - k
  {
    hide Send, SenderAt, PacketOf;
    if k < Parts(st) {
      SendStep(st, k);
      SenderData(st, k);
      EmitsAll(st, k + 1);
    }
  }

  lemma SenderData(st: Stream, k: nat)
    requires k < Parts(st)
    ensures SenderAt(st, k).data == SenderAt(st, k + 1).data == st.data
  {}

  lemma {:induction false} FeedsAll(st: Stream, k: nat)
    requires 1 <= k <= Parts(st) && |st.data| <= MAX_STREAM
    ensures Feed(ReceiverAt(st, k), PacketsFrom(st, k)) == Some(ReceiverAt(st, Parts(st)))
    decreases Parts(st) - k
  {
    hide Receive, ReceiverAt, PacketOf;
    if k < Parts(st) {
      ReceiveNext(st, k);
      FeedsAll(st, k + 1);
    }
  }

  /** The receiver made from the first packet and fed all of them is the completed one. */
  lemma ReceivesWhole(st: Stream)
    requires 1 <= |st.data| <= MAX_STREAM
    ensures var ps := Emit(Start(st), Parts(st));
            ps != [] && Feed(NewReceiver(ps[0], st.key), ps) == Some(ReceiverAt(st, Parts(st)))
  {
    hide Send, Receive, NewReceiver, ReceiverAt, PacketOf, SenderAt, Filled, Key.Apply, Key.After;
    PartBounds(|st.data|);
    StartIsFirst(st);
    EmitsAll(st, 0);
    ReceiveFirst(st);
    FeedsAll(st, 1);
  }

  /** A stream arrives unchanged exactly when it is not empty and its receive buffer size fits
      32 bits; otherwise nothing arrives. */
  lemma TransferIff(st: Stream)
    ensures 1 <= |st.data| <= MAX_STREAM ==> Transfer(st) == Some(st.data)
    ensures !(1 <= |st.data| <= MAX_STREAM) ==> Transfer(st) == None
  {
    hide Send, Receive, NewReceiver, ReceiverAt, PacketOf, SenderAt, Filled, Key.Apply, Key.After;
    if 1 <= |st.data| <= MAX_STREAM {
      ReceivesWhole(st);
      CompletedDelivers(st);
    } else {
      PartBounds(|st.data|);
      StartIsFirst(st);
      EmitsAll(st, 0);
      if st.data != [] { TooLong(st); }
    }
  }

  /** Beyond the bound the receiver's buffer size wraps to zero and the first packet is refused. */
  lemma TooLong(st: Stream)
    requires |st.data| > MAX_STREAM
    ensures Parts(st) == 65536 && !Receive(NewReceiver(PacketOf(st, 1), st.key), PacketOf(st, 1)).ok
  {
    PartBounds(|st.data|);
    assert Wrap(65536 * MAX_PACKET_BODY) == 0;
  }

  // ----- any packets at all -----

  /** The last `n` packets are parts 1 to `n`, in order. */
  predicate EndsWithParts(ps: seq<Packet>, n: nat) {
    n <= |ps| && forall i :: |ps| - n <= i < |ps| ==> ps[i].part == i - (|ps| - n) + 1
  }

  /** Whatever was lost, repeated or reordered: a receiver that has accepted everything since it
      was made stands at part `n` only when its last `n` packets were parts 1 to `n`. So it
      completes only on all parts of a stream, consecutively. */
  lemma {:induction false} CompletesOnlyOnAllParts(ps: seq<Packet>, key: Key)
    requires ps != []
    ensures var r := Feed(NewReceiver(ps[0], key), ps);
            r.Some? ==> r.value.part == ps[|ps| - 1].part && EndsWithParts(ps, r.value.part)
    decreases |ps|
  {
    hide Key.Apply, Key.After, Overwrite, Clamp;
    var first := NewReceiver(ps[0], key);
    var last := |ps| - 1;
    var before := Feed(first, ps[..last]);
    FeedSplit(first, ps[..last], [ps[last]]);
    assert ps == ps[..last] + [ps[last]];
    if last > 0 {
      CompletesOnlyOnAllParts(ps[..last], key);
    }
    if before.Some? {
      FeedOne(before.value, ps[last]);
    }
  }

  /** The packet that completes a receiver is the last of as many parts as its first packet announced,
      all of them in order. */
  lemma {:induction false} LastPartCompletes(ps: seq<Packet>, key: Key)
    requires ps != []
    requires var before := Feed(NewReceiver(ps[0], key), ps[..|ps| - 1]);
             before.Some? && !before.value.status.Completed?
    requires var r := Feed(NewReceiver(ps[0], key), ps); r.Some? && r.value.status.Completed?
    ensures ps[|ps| - 1].part == ps[0].parts && EndsWithParts(ps, ps[0].parts)
  {
    hide Receive, NewReceiver, EndsWithParts, Feed;
    var first, last := NewReceiver(ps[0], key), |ps| - 1;
    NewReceiverParts(ps[0], key);
    CompletesOnlyOnAllParts(ps, key);
    assert ps == ps[..last] + [ps[last]];
    FeedSplit(first, ps[..last], [ps[last]]);
    var before := Feed(first, ps[..last]).value;
    FeedOne(before, ps[last]);
    FeedKeepsParts(first, ps[..last]);
  }

  lemma NewReceiverParts(p: Packet, key: Key)
    ensures NewReceiver(p, key).parts == p.parts && NewReceiver(p, key).id == p.streamId
    ensures NewReceiver(p, key).status == Idle
  {}

  lemma {:induction false} FeedKeepsParts(r: Receiver, ps: seq<Packet>)
    ensures var f := Feed(r, ps); f.Some? ==> f.value.parts == r.parts && f.value.id == r.id
    decreases |ps|
  {
    hide Receive;
    if ps != [] {
      FeedKeepsParts(Receive(r, ps[0]).next, ps[1..]);
    }
  }

  /** So a receiver that is completed has at some time accepted all parts in order. */
  lemma {:induction false} CompletedHasAllParts(ps: seq<Packet>, key: Key) returns (n: nat)
    requires ps != []
    requires var r := Feed(NewReceiver(ps[0], key), ps); r.Some? && r.value.status.Completed?
    ensures 0 < n <= |ps| && ps[n - 1].part == ps[0].parts && EndsWithParts(ps[..n], ps[0].parts)
    decreases |ps|
  {
    hide Receive;
    var first, last := NewReceiver(ps[0], key), |ps| - 1;
    FeedSplit(first, ps[..last], [ps[last]]);
    assert ps == ps[..last] + [ps[last]] == ps[..|ps|];
    var before := Feed(first, ps[..last]);
    if last > 0 && before.value.status.Completed? {
      n := CompletedHasAllParts(ps[..last], key);
      assert ps[..last][..n] == ps[..n];
    } else {
      LastPartCompletes(ps, key);
      n := |ps|;
    }
  }

  lemma FeedOne(r: Receiver, p: Packet)
    ensures var res := Receive(r, p);
            Feed(r, [p]) == if res.ok then Some(res.next) else None
    ensures Receive(r, p).ok ==> Receive(r, p).next.part == p.part && (p.part <= 1 || p.part == r.part + 1)
    ensures Receive(r, p).ok && !r.status.Completed? && Receive(r, p).next.status.Completed? ==> p.part == r.parts
  {}

  lemma {:induction false} FeedSplit(r: Receiver, a: seq<Packet>, b: seq<Packet>)
    ensures Feed(r, a + b) == (var m := Feed(r, a); if m.Some? then Feed(m.value, b) else None)
    decreases |a|
  {
    if a == [] {
      assert a + b == b;
    } else {
      assert (a + b)[0] == a[0] && (a + b)[1..] == a[1..] + b;
      FeedSplit(Receive(r, a[0]).next, a[1..], b);
    }
  }
}
