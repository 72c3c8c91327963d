/** The objects behind the streams: memory buffers, senders that reuse one body buffer for all
    their packets, and receivers that write packets into one buffer. */
module StreamObjects {
  import opened Options
  import opened Bytes
  import opened Ctr
  import opened Aes
  import opened Streams

  /** `s` with `patch` at `at`; nothing happens for an empty patch, wherever it is. */
  function Patched(s: bytes, at: nat, patch: bytes): bytes
    requires patch == [] || at + |patch| <= |s|
  {
    if patch == [] then s else Overwrite(s, at, patch)
  }

  method MemCopy(dst: array<byte>, d: nat, src: array<byte>, s: nat, n: nat)
    requires dst != src && s + n <= src.Length && d + n <= dst.Length
    modifies dst
    ensures dst[..] == Overwrite(old(dst[..]), d, src[s..s + n])
  {
    ghost var was := dst[..];
    for k := 0 to n
      invariant forall i :: 0 <= i < dst.Length && !(d <= i < d + k) ==> dst[i] == was[i]
      invariant forall i :: d <= i < d + k ==> dst[i] == src[s + i - d]
    {
      dst[d + k] := src[s + k];
    }
    assert dst[..] == Overwrite(was, d, src[s..s + n]);
  }

  lemma ReadIntoZeros(read: bytes, asked: nat)
    requires |read| <= asked <= MAX_PACKET_BODY
    ensures var b := Patched(Zeros(MAX_PACKET_BODY), 0, read);
            |b| == MAX_PACKET_BODY && b[..|read|] == read && b[..asked] == read + Zeros(asked - |read|)
  {}

  class MemoryBuffer {
    const data: array<byte>

    /** A zero-filled buffer. */
    constructor (size: uint32)
      ensures fresh(data) && data[..] == Zeros(size)
    {
      data := new byte[size](_ => 0);
    }

    /** Reads up to `size` bytes at an offset, clamped to the buffer; fails only on an empty one. */
    method Read(dst: array<byte>, size: uint32, offset: uint32) returns (ok: bool, bytesRead: nat)
      requires dst != data && Clamp(data.Length, offset, size) <= dst.Length
      modifies dst
      ensures ok == (data.Length > 0)
      ensures bytesRead == if ok then Clamp(data.Length, offset, size) else 0
      ensures dst[..] == Patched(old(dst[..]), 0, if bytesRead == 0 then [] else data[offset..offset + bytesRead])
      ensures bytesRead == if offset >= data.Length then 0
                           else if size <= data.Length - offset then size else data.Length - offset
      ensures forall k :: 0 <= k < dst.Length ==> dst[k] == if k < bytesRead then data[offset + k] else old(dst[k])
    {
      bytesRead := 0;
      if data.Length == 0 {
        return false, 0;
      }
      if offset < data.Length {
        bytesRead := if data.Length - offset > size then size else data.Length - offset;
      }
      if bytesRead > 0 {
        MemCopy(dst, 0, data, offset, bytesRead);
      }
      ok := true;
    }

    /** Writes up to `size` bytes at an offset, clamped to the buffer; fails only on an empty one. */
    method Write(src: array<byte>, size: uint32, offset: uint32) returns (ok: bool, bytesWritten: nat)
      requires src != data && Clamp(data.Length, offset, size) <= src.Length
      modifies data
      ensures ok == (data.Length > 0)
      ensures bytesWritten == if ok then Clamp(data.Length, offset, size) else 0
      ensures data[..] == Patched(old(data[..]), offset, src[..bytesWritten])
      ensures bytesWritten == if offset >= data.Length then 0
                              else if size <= data.Length - offset then size else data.Length - offset
      ensures forall k :: 0 <= k < data.Length ==>
                data[k] == if offset <= k < offset + bytesWritten then src[k - offset] else old(data[k])
    {
      bytesWritten := 0;
      if data.Length == 0 {
        return false, 0;
      }
      if offset < data.Length {
        bytesWritten := if data.Length - offset > size then size else data.Length - offset;
      }
      if bytesWritten > 0 {
        MemCopy(data, offset, src, 0, bytesWritten);
      }
      ok := true;
    }

    /** A new buffer with the same bytes. */
    method Copy() returns (c: MemoryBuffer)
      requires 0 < data.Length < TWO_32
      ensures fresh(c) && fresh(c.data) && c.data[..] == data[..]
    {
      c := new MemoryBuffer(data.Length);
      MemCopy(c.data, 0, data, 0, data.Length);
      assert Overwrite(Zeros(data.Length), 0, data[..]) == data[..];
      assert data[0..data.Length] == data[..];
    }

    method Clear()
      modifies data
      ensures data[..] == Zeros(data.Length)
    {
      for k := 0 to data.Length
        invariant forall i :: 0 <= i < k ==> data[i] == 0
      {
        data[k] := 0;
      }
    }
  }

  /** A packet refers to its body buffer, of which the first `bodySize` bytes count. */
  datatype PacketRef = PacketRef(
    streamId: uint32, streamType: nat, part: uint32, parts: uint32, bodySize: nat, body: MemoryBuffer)
  {
    ghost predicate Valid() {
      bodySize <= body.data.Length
    }

    ghost function Value(): Packet
      requires Valid()
      reads body.data
    {
      Packet(streamId, streamType, part, parts, body.data[..bodySize])
    }
  }

  ghost function KeyOf(cipher: Cipher?): Key
    reads cipher
  {
    if cipher == null then Plain else Keyed(cipher.e, cipher.ctr)
  }

  function Owned(cipher: Cipher?): set<object> {
    if cipher == null then {} else {cipher}
  }

  /** A buffer sender (no cipher) or a resource sender. */
  class StreamSender {
    const id: uint32
    const streamType: nat
    const source: MemoryBuffer
    const body: MemoryBuffer
    const cipher: Cipher?
    const parts: uint32
    var part: uint32
    var status: Status

    /** What processing may change: the sender, its one body buffer, its cipher. */
    ghost const owned: set<object>

    ghost predicate Valid() {
      && owned == {this, body.data} + Owned(cipher)
      && body.data.Length == MAX_PACKET_BODY && source.data.Length < TWO_32
      && source.data !in owned
    }

    ghost function Value(): (s: Sender)
      reads this, source.data, cipher
      ensures |s.data| == source.data.Length
    {
      Sender(id, streamType, source.data[..], KeyOf(cipher), part, parts, status)
    }

    constructor (id: uint32, streamType: nat, source: MemoryBuffer, cipher: Cipher?)
      requires source.data.Length < TWO_32
      ensures Valid() && owned == {this, body.data} + Owned(cipher)
      ensures this.source == source && this.cipher == cipher && fresh(body.data)
      ensures Value() == NewSender(id, streamType, source.data[..], KeyOf(cipher))
    {
      this.id, this.streamType, this.source, this.cipher := id, streamType, source, cipher;
      var b := new MemoryBuffer(MAX_PACKET_BODY);
      body := b;
      parts := PartCount(source.data.Length);
      part, status := 0, Idle;
      owned := {this, b.data} + Owned(cipher);
    }

    /** Copies the next bytes of the source into the cleared body. */
    method FillBody(asked: uint32, bytesSent: uint32) returns (ok: bool, bytesRead: nat)
      requires Valid() && asked <= MAX_PACKET_BODY && body.data[..] == Zeros(MAX_PACKET_BODY)
      modifies body.data
      ensures ok == (source.data.Length > 0)
      ensures ok ==> bytesRead == Clamp(source.data.Length, bytesSent, asked)
      ensures ok ==>
                var read := if bytesRead == 0 then [] else source.data[bytesSent..bytesSent + bytesRead];
                body.data[..bytesRead] == read && body.data[..asked] == read + Zeros(asked - bytesRead)
    {
      hide Overwrite, Patched, Zeros, Clamp;
      ok, bytesRead := source.Read(body.data, asked, bytesSent);
      if ok {
        ghost var read := if bytesRead == 0 then [] else source.data[bytesSent..bytesSent + bytesRead];
        ReadIntoZeros(read, asked);
        assert body.data[..] == Patched(Zeros(MAX_PACKET_BODY), 0, read);
        assert body.data[..bytesRead] == body.data[..][..bytesRead];
        assert body.data[..asked] == body.data[..][..asked];
      }
    }

    /** Fills the shared body and describes it; nothing read means no packet for a buffer. */
    method PreparePacket(bytesToSend: uint32, bytesSent: uint32) returns (ok: bool, pkt: Option<PacketRef>)
      requires Valid() && body.data[..] == Zeros(MAX_PACKET_BODY)
      requires bytesSent == Wrap(part * MAX_PACKET_BODY)
      requires bytesToSend == BytesToSend(source.data.Length, bytesSent)
      modifies body.data
      ensures ok == (source.data.Length > 0)
      ensures ok ==> pkt.Some? == (Content(Value()) != [])
      ensures ok && pkt.Some? ==>
                && pkt.value.body == body && pkt.value.Valid() && pkt.value.bodySize == |Content(Value())|
                && pkt.value.Value() == Packet(id, streamType, Wrap(part + 1), parts, Content(Value()))
    {
      hide Zeros, Clamp, Content, BytesToSend;
      pkt := None;
      var asked := if cipher != null && bytesToSend == 0 then MAX_PACKET_BODY else bytesToSend;
      var bytesRead;
      ok, bytesRead := FillBody(asked, bytesSent);
      if ok {
        var size := if cipher == null then bytesRead else asked;
        ContentIs(Value(), asked, bytesRead, body.data[..asked]);
        assert body.data[..size] == body.data[..asked][..size];
        if size > 0 {
          pkt := Some(PacketRef(id, streamType, Wrap(part + 1), parts, size, body));
        }
      }
    }

    /** Encrypts the body in place, for a resource. */
    method ProcessPacket(pkt: PacketRef)
      requires Valid() && pkt.Valid() && pkt.body == body && pkt.bodySize < TWO_32
      modifies body.data, Owned(cipher)
      ensures pkt.Value() == old(pkt.Value()).(body := old(KeyOf(cipher)).Apply(old(pkt.Value().body)))
      ensures KeyOf(cipher) == old(KeyOf(cipher)).After(pkt.bodySize)
    {
      if cipher != null {
        ghost var key, plain := KeyOf(cipher), body.data[..pkt.bodySize];
        cipher.Encrypt(body.data, body.data, pkt.bodySize);
        assert body.data[..pkt.bodySize] == Crypt(key.e, key.ctr, plain);
      }
    }

    /** One packet, as the stream model says; its body is the sender's own buffer. */
    method Process() returns (ok: bool, pkt: Option<PacketRef>)
      requires Valid()
      modifies owned
      ensures Valid()
      ensures var sent := Send(old(Value()));
              && Value() == sent.next && ok == sent.ok && pkt.Some? == sent.packet.Some?
              && (pkt.Some? ==> pkt.value.Valid() && pkt.value.body == body && pkt.value.Value() == sent.packet.value)
    {
      hide Key.Apply, Key.After, Content, BytesToSend, Zeros;
      var bytesSent := Wrap(part * MAX_PACKET_BODY);
      var bytesToSend := BytesToSend(source.data.Length, bytesSent);
      body.Clear();
      ok, pkt := PreparePacket(bytesToSend, bytesSent);
      if !ok {
        status := Error;
        return false, None;
      }
      if pkt.Some? {
        ProcessPacket(pkt.value);
        part := Wrap(part + 1);
      }
      if parts > 0 && part == parts {
        status := Completed;
      }
    }
  }

  /** A buffer receiver (no cipher) or a resource receiver. */
  class StreamReceiver {
    const id: uint32
    const streamType: nat
    const parts: uint32
    const buffer: MemoryBuffer
    const cipher: Cipher?
    var part: uint32
    var bytesReceived: uint32
    var status: Status

    ghost const owned: set<object>

    ghost predicate Valid() {
      owned == {this, buffer.data} + Owned(cipher) && buffer.data.Length < TWO_32
    }

    ghost function Value(): Receiver
      reads this, buffer.data, cipher
    {
      Receiver(id, streamType, part, parts, buffer.data[..], bytesReceived, KeyOf(cipher), status)
    }

    constructor (pkt: PacketRef, cipher: Cipher?)
      requires pkt.Valid()
      ensures Valid() && this.cipher == cipher && fresh(buffer.data)
      ensures Value() == NewReceiver(pkt.Value(), KeyOf(cipher))
    {
      id, streamType, part, parts := pkt.streamId, pkt.streamType, pkt.part, pkt.parts;
      this.cipher := cipher;
      var b := new MemoryBuffer(Wrap(pkt.parts * MAX_PACKET_BODY));
      buffer := b;
      bytesReceived, status := 0, Idle;
      owned := {this, b.data} + Owned(cipher);
    }

    /** The bytes received: the start of the buffer. */
    method Data() returns (bs: bytes)
      ensures bs == Delivered(Value())
    {
      bs := buffer.data[..if bytesReceived < buffer.data.Length then bytesReceived else buffer.data.Length];
    }

    /** Decrypts the packet body in place, for a resource. */
    method Decrypt(pkt: PacketRef)
      requires Valid() && pkt.Valid() && pkt.body.data !in owned && pkt.bodySize < TWO_32
      modifies pkt.body.data, Owned(cipher)
      ensures pkt.Value() == old(pkt.Value()).(body := old(KeyOf(cipher)).Apply(old(pkt.Value().body)))
      ensures KeyOf(cipher) == old(KeyOf(cipher)).After(pkt.bodySize)
    {
      if cipher != null {
        ghost var key, secret := KeyOf(cipher), pkt.body.data[..pkt.bodySize];
        if pkt.bodySize > 0 {
          cipher.Encrypt(pkt.body.data, pkt.body.data, pkt.bodySize);
        } else {
          NoBlocks();
        }
        assert pkt.body.data[..pkt.bodySize] == Crypt(key.e, key.ctr, secret);
      }
    }

    /** Accepts or rejects a packet, as the stream model says. */
    method Process(pkt: PacketRef) returns (ok: bool)
      requires Valid() && pkt.Valid() && pkt.body.data !in owned && pkt.bodySize < TWO_32
      modifies owned, pkt.body.data
      ensures Valid()
      ensures var res := Receive(old(Value()), old(pkt.Value())); Value() == res.next && ok == res.ok
    {
      hide Key.Apply, Key.After, Streams.Store;
      if pkt.part > 1 && pkt.part != Wrap(part + 1) {
        return false;
      }
      Decrypt(pkt);
      ok := Store(pkt);
    }

    /** Writes the body at its place in the buffer. */
    method Store(pkt: PacketRef) returns (ok: bool)
      requires Valid() && pkt.Valid() && pkt.body.data !in owned && pkt.bodySize < TWO_32
      modifies this, buffer.data
      ensures Valid()
      ensures var res := Streams.Store(old(Value()), pkt.Value()); Value() == res.next && ok == res.ok
    {
      hide Clamp, Overwrite, KeyOf;
      ghost var body := pkt.body.data[..pkt.bodySize];
      var written;
      ok, written := buffer.Write(pkt.body.data, pkt.bodySize, Wrap(Wrap(pkt.part - 1) * MAX_PACKET_BODY));
      assert pkt.body.data[..written] == body[..written];
      if !ok {
        status := Error;
        return;
      }
      bytesReceived := Wrap(bytesReceived + pkt.bodySize);
      part := pkt.part;
      if part == parts {
        status := Completed;
      }
    }
  }
}
