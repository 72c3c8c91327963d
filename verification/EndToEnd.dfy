/** A value all the way: encoded, cut into packets, put together by a receiver, and decoded from the
    bytes it has received. */
module EndToEnd {
  import opened Bytes
  import opened Options
  import opened Streams
  import opened UbjSyntax
  import opened UbjValue
  import UbjTreeReader
  import UbjTreeWriter
  import UbjWriter

  /** What the other side reads is the value, with its strings cut at the first zero byte. */
  method ValueOverStream(v: Value, id: uint32, streamType: nat, key: Key) returns (back: Value)
    requires Writable(v) && Depth(v) < UbjWriter.CONTAINER_STACK_MAX && (v.Obj? || v.Arr? || v.Buf?)
    requires |Encode(v)| <= MAX_STREAM
    ensures back == Canon(v)
    ensures back == v <==> CClean(v)
  {
    hide Tagged, Emit, Feed, NewReceiver, ReceiverAt, Delivered, Canon, CClean, Meaning, UbjTreeReader.DistinctKeys;
    var data := UbjTreeWriter.Write(v);
    EncodesSomething(v);
    var st := Stream(id, streamType, data, key);
    var packets := Emit(Start(st), Parts(st));
    ReceivesWhole(st);
    var receiver := Feed(NewReceiver(packets[0], key), packets).value;
    CompletedDelivers(st);
    SyntaxMeansValue(v);
    UbjTreeReader.WritableKeysDistinct(v);
    UbjTreeReader.SyntaxKind(v);
    CanonIsIdentityIffClean(v);
    assert data + [] == data;
    var ok, value, end := UbjTreeReader.Read(Delivered(receiver), Syntax(v), []);
    back := value;
  }

  lemma EncodesSomething(v: Value)
    requires Writable(v)
    ensures |Encode(v)| > 0
  {}
}
