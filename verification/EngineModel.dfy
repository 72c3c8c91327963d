/** The engine on values: the sender round, the demultiplexer, and the whole system of two engines
    joined by a first-in first-out wire, over every run. */
module EngineModel {
  import opened Options
  import opened Bytes
  import opened Streams

  // ----- the sender round -----

  datatype Round = Round(senders: seq<Sender>, packets: seq<Packet>)

  function RemoveAt<T>(s: seq<T>, i: nat): seq<T>
    requires i < |s|
  {
    s[..i] + s[i + 1..]
  }

  lemma RemovedAt<T>(s: seq<T>, i: nat)
    requires i < |s|
    ensures |RemoveAt(s, i)| == |s| - 1
    ensures forall j :: 0 <= j < i ==> RemoveAt(s, i)[j] == s[j]
    ensures forall k :: i <= k < |s| - 1 ==> RemoveAt(s, i)[k] == s[k + 1]
  {}

  predicate Sendable(ss: seq<Sender>) {
    forall i :: 0 <= i < |ss| ==> |ss[i].data| < TWO_32
  }

  /** Serves the snapshot from position `i` on: one packet per sender, until one completes or fails
      (it is removed) or the packet callback refuses. `accept[n]` is the answer to packet `n`. */
  function RoundFrom(ss: seq<Sender>, i: nat, accept: seq<bool>): (r: Round)
    requires i <= |ss| && |ss| - i <= |accept| && Sendable(ss)
    ensures Sendable(r.senders)
    decreases |ss| - i
  {
    if i == |ss| then Round(ss, [])
    else
      var sent := Send(ss[i]);
      var served := ss[i := sent.next];
      if !sent.ok then Round(RemoveAt(ss, i), [])
      else if sent.packet.Some? && !accept[0] then Round(served, [sent.packet.value])
      else
        var out := if sent.packet.Some? then [sent.packet.value] else [];
        if sent.next.status.Completed? then Round(RemoveAt(served, i), out)
        else
          var rest := RoundFrom(served, i + 1, if sent.packet.Some? then accept[1..] else accept);
          Round(rest.senders, out + rest.packets)
  }

  /** The state of a sender that was asked for a packet. */
  ghost predicate Served(before: Sender, after: Sender) {
    |before.data| < TWO_32 && Send(before).ok && after == Send(before).next
  }

  /** A round serves the senders one by one, each once, up to the first that completes or fails, which
      leaves the list, or whose packet is refused, which stays; the ones behind are not touched. */
  lemma {:induction false} RoundIs(ss: seq<Sender>, i: nat, accept: seq<bool>) returns (stop: nat)
    requires i <= |ss| && |ss| - i <= |accept| && Sendable(ss)
    ensures i <= stop <= |ss|
    ensures var after := RoundFrom(ss, i, accept).senders;
            && |after| <= |ss| <= |after| + 1 && stop <= |after|
            && (forall j :: 0 <= j < i ==> after[j] == ss[j])
            && (forall j :: i <= j < stop ==> Served(ss[j], after[j]) && !after[j].status.Completed?)
            && (stop == |ss| ==> |after| == |ss|)
            && (|after| < |ss| ==> stop < |ss| && (!Send(ss[stop]).ok || Send(ss[stop]).next.status.Completed?)
                                   && forall k :: stop <= k < |after| ==> after[k] == ss[k + 1])
            && (|after| == |ss| && stop < |ss| ==>
                  Served(ss[stop], after[stop]) && Send(ss[stop]).packet.Some?
                  && forall j :: stop < j < |ss| ==> after[j] == ss[j])
    decreases |ss| - i
  {
    hide Send, RemoveAt;
    stop := i;
    if i < |ss| {
      var sent := Send(ss[i]);
      var served := ss[i := sent.next];
      RemovedAt(ss, i);
      RemovedAt(served, i);
      if sent.ok && (sent.packet.None? || accept[0]) && !sent.next.status.Completed? {
        SendKeepsData(ss[i]);
        stop := RoundIs(served, i + 1, if sent.packet.Some? then accept[1..] else accept);
      }
    }
  }

  function Yes(n: nat): (a: seq<bool>)
    ensures |a| == n && forall i :: 0 <= i < n ==> a[i]
  {
    seq(n, _ => true)
  }

  /** A round in which the callback takes every packet. */
  function SendRound(ss: seq<Sender>): Round
    requires Sendable(ss)
  {
    RoundFrom(ss, 0, Yes(|ss|))
  }

  // ----- how long a sender stays -----

  /** A sender as it is made from any data, the empty ones included, and not yet completed. */
  predicate Underway(s: Sender) {
    |s.data| < TWO_32 && s.parts == PartCount(|s.data|) && (s.data == [] || s.part < s.parts)
  }

  predicate AllUnderway(ss: seq<Sender>) {
    forall i :: 0 <= i < |ss| ==> Underway(ss[i])
  }

  /** The calls until it leaves the list: one per part, and one for the empty buffer, which fails. */
  function Left(s: Sender): int {
    if s.data == [] then 1 else s.parts - s.part
  }

  lemma SendMoves(s: Sender)
    requires Underway(s)
    ensures Left(s) >= 1 && (Send(s).ok <==> s.data != [])
    ensures Send(s).ok ==>
              && Send(s).packet.Some? && Send(s).next.id == s.id
              && (Send(s).next.status.Completed? || (Underway(Send(s).next) && Left(Send(s).next) == Left(s) - 1))
  {
    if s.data != [] {
      PartBounds(|s.data|);
      var sent := s.part * MAX_PACKET_BODY;
      assert sent <= (s.parts - 1) * MAX_PACKET_BODY < |s.data|;
      assert Wrap(sent) == sent && BytesToSend(|s.data|, sent) > 0;
      assert |Content(s)| > 0;
    }
  }

  /** Position and calls left of every sender with this id add up to at most `n`. */
  ghost predicate Within(ss: seq<Sender>, id: uint32, n: int) {
    forall i :: 0 <= i < |ss| && ss[i].id == id ==> i + Left(ss[i]) <= n
  }

  /** The positions before `i` have had their call of this round already. */
  lemma {:induction false} RoundWithin(ss: seq<Sender>, i: nat, accept: seq<bool>, id: uint32, n: int)
    requires AllUnderway(ss) && i <= |ss| && |ss| - i <= |accept| && forall k :: 0 <= k < |accept| ==> accept[k]
    requires Within(ss, id, n) && Within(ss[..i], id, n - 1)
    ensures Sendable(ss)
    ensures var after := RoundFrom(ss, i, accept).senders;
            AllUnderway(after) && Within(after, id, n - 1)
    decreases |ss| - i
  {
    if i == |ss| {
      assert ss[..i] == ss;
    } else {
      SendMoves(ss[i]);
      hide Left, Underway, Send;
      var sent := Send(ss[i]);
      if sent.ok && !sent.next.status.Completed? {
        var served := ss[i := sent.next];
        assert served[..i + 1] == ss[..i] + [sent.next];
        RoundWithin(served, i + 1, accept[1..], id, n);
      }
    }
  }

  /** Rounds in which the callback takes every packet; after each, new senders join. */
  function Rounds(ss: seq<Sender>, arrivals: seq<seq<Sender>>): seq<Sender>
    requires Sendable(ss) && forall k :: 0 <= k < |arrivals| ==> Sendable(arrivals[k])
    decreases |arrivals|
  {
    if arrivals == [] then ss
    else
      var after := SendRound(ss).senders;
      assert Sendable(after) && Sendable(arrivals[0]);
      Rounds(after + arrivals[0], arrivals[1..])
  }

  /** A sender at position `p` with `r` calls left is gone after `p + r` rounds, whatever the other
      senders are, empty and oversize ones included, and however many join. */
  lemma {:induction false} GoneWithin(ss: seq<Sender>, arrivals: seq<seq<Sender>>, id: uint32, n: int)
    requires AllUnderway(ss) && forall k :: 0 <= k < |arrivals| ==> AllUnderway(arrivals[k])
    requires forall k, i :: 0 <= k < |arrivals| && 0 <= i < |arrivals[k]| ==> arrivals[k][i].id != id
    requires Within(ss, id, n) && |arrivals| >= n
    ensures Sendable(ss) && forall k :: 0 <= k < |arrivals| ==> Sendable(arrivals[k])
    ensures forall i :: 0 <= i < |Rounds(ss, arrivals)| ==> Rounds(ss, arrivals)[i].id != id
    decreases |arrivals|
  {
    forall k | 0 <= k < |arrivals| ensures Sendable(arrivals[k]) {
      assert AllUnderway(arrivals[k]);
    }
    if arrivals == [] {
      forall i | 0 <= i < |ss| ensures ss[i].id != id {
        SendMoves(ss[i]);
      }
    } else {
      hide Left, Underway;
      assert ss[..0] == [];
      RoundWithin(ss, 0, Yes(|ss|), id, n);
      var after := SendRound(ss).senders;
      assert AllUnderway(after + arrivals[0]) && Within(after + arrivals[0], id, n - 1);
      GoneWithin(after + arrivals[0], arrivals[1..], id, n - 1);
    }
  }

  /** A stream posted behind `n` senders is gone after `n` rounds and one for each of its parts of 65536
      bytes, or one if it is empty. */
  lemma PostedIsGone(ss: seq<Sender>, st: Stream, arrivals: seq<seq<Sender>>)
    requires AllUnderway(ss) && forall k :: 0 <= k < |arrivals| ==> AllUnderway(arrivals[k])
    requires forall i :: 0 <= i < |ss| ==> ss[i].id != st.id
    requires forall k, i :: 0 <= k < |arrivals| && 0 <= i < |arrivals[k]| ==> arrivals[k][i].id != st.id
    requires |arrivals| >= |ss| + if st.data == [] then 1 else (|st.data| + 65535) / 65536
    ensures Sendable(ss + [Start(st)]) && forall k :: 0 <= k < |arrivals| ==> Sendable(arrivals[k])
    ensures var after := Rounds(ss + [Start(st)], arrivals); forall i :: 0 <= i < |after| ==> after[i].id != st.id
  {
    PartBounds(|st.data|);
    var all, n := ss + [Start(st)], |ss| + if st.data == [] then 1 else (|st.data| + 65535) / 65536;
    assert all[|ss|] == Start(st) && forall i :: 0 <= i < |ss| ==> all[i] == ss[i];
    assert Within(all, st.id, n);
    GoneWithin(all, arrivals, st.id, n);
  }

  // ----- the demultiplexer -----

  /** What a receiving engine knows: running receivers and what was handed over, oldest first. */
  datatype Inbox = Inbox(receivers: map<uint32, Receiver>, delivered: seq<(uint32, bytes)>)

  /** A packet of an unknown stream makes a receiver if there is a key for it; a rejecting or
      completed receiver is forgotten. */
  function Demux(box: Inbox, p: Packet, key: Option<Key>): Inbox {
    if p.streamId !in box.receivers && key.None? then box
    else
      var r := if p.streamId in box.receivers then box.receivers[p.streamId] else NewReceiver(p, key.value);
      var res := Receive(r, p);
      if !res.ok then box.(receivers := box.receivers - {r.id})
      else if res.next.status.Completed? then
        Inbox(box.receivers - {r.id}, box.delivered + [(r.id, Delivered(res.next))])
      else box.(receivers := box.receivers[p.streamId := res.next])
  }

  /** There is a receiver for the packet, or a key to make one, and it takes the packet. */
  predicate Accepts(box: Inbox, p: Packet, key: Option<Key>) {
    && (p.streamId in box.receivers || key.Some?)
    && Receive(if p.streamId in box.receivers then box.receivers[p.streamId] else NewReceiver(p, key.value), p).ok
  }

  /** Receivers are filed under their own id and none of them is completed. */
  predicate GoodInbox(box: Inbox) {
    forall id :: id in box.receivers ==> box.receivers[id].id == id && !box.receivers[id].status.Completed?
  }

  lemma DemuxKeepsGood(box: Inbox, p: Packet, key: Option<Key>)
    requires GoodInbox(box)
    ensures GoodInbox(Demux(box, p, key))
    ensures forall id :: id in box.receivers && id != p.streamId ==>
              id in Demux(box, p, key).receivers && Demux(box, p, key).receivers[id] == box.receivers[id]
  {}

  // ----- any packets at all -----

  /** A packet that arrives, and what the engine's owner answers if its stream is unknown. */
  datatype Arrival = Arrival(p: Packet, key: Option<Key>)

  /** The inbox after any packets, from any streams, in any order. */
  function DemuxAll(arrivals: seq<Arrival>): Inbox
    decreases |arrivals|
  {
    if arrivals == [] then Inbox(map[], [])
    else
      var last := |arrivals| - 1;
      Demux(DemuxAll(arrivals[..last]), arrivals[last].p, arrivals[last].key)
  }

  /** The packets of one stream that were accepted. */
  function AcceptedOf(arrivals: seq<Arrival>, id: uint32): seq<Packet>
    decreases |arrivals|
  {
    if arrivals == [] then []
    else
      var last := |arrivals| - 1;
      var a := arrivals[last];
      AcceptedOf(arrivals[..last], id)
      + if a.p.streamId == id && Accepts(DemuxAll(arrivals[..last]), a.p, a.key) then [a.p] else []
  }

  /** The receiver was made from packet `k` of the accepted ones and has taken all since. */
  ghost predicate FedFrom(r: Receiver, accepted: seq<Packet>, k: nat, key: Key) {
    k < |accepted| && Feed(NewReceiver(accepted[k], key), accepted[k..]) == Some(r)
  }

  /** The receiver has taken all accepted packets since some first one. */
  ghost predicate IsFed(r: Receiver, accepted: seq<Packet>) {
    exists k, key :: FedFrom(r, accepted, k, key)
  }

  ghost predicate AllFed(arrivals: seq<Arrival>) {
    var box := DemuxAll(arrivals);
    forall id :: id in box.receivers ==> IsFed(box.receivers[id], AcceptedOf(arrivals, id))
  }

  lemma LastArrival(arrivals: seq<Arrival>)
    requires arrivals != []
    ensures var last := |arrivals| - 1;
            var init, p, key := arrivals[..last], arrivals[last].p, arrivals[last].key;
            && DemuxAll(arrivals) == Demux(DemuxAll(init), p, key)
            && (forall id :: id != p.streamId ==> AcceptedOf(arrivals, id) == AcceptedOf(init, id))
            && (Accepts(DemuxAll(init), p, key) ==>
                  AcceptedOf(arrivals, p.streamId) == AcceptedOf(init, p.streamId) + [p])
  {
    hide Demux, Accepts;
  }

  /** In every run the receivers are good, and each has taken the accepted packets of its stream since
      some first one. */
  lemma {:induction false} RunningAreFed(arrivals: seq<Arrival>)
    ensures GoodInbox(DemuxAll(arrivals)) && AllFed(arrivals)
    decreases |arrivals|
  {
    if arrivals != [] {
      hide Demux, Accepts, IsFed, DemuxAll, AcceptedOf;
      var last := |arrivals| - 1;
      var init, p, key := arrivals[..last], arrivals[last].p, arrivals[last].key;
      var box, after := DemuxAll(init), DemuxAll(arrivals);
      RunningAreFed(init);
      LastArrival(arrivals);
      DemuxKeepsGood(box, p, key);
      DemuxEffect(box, p, key);
      if p.streamId in after.receivers {
        var k, from := AcceptedIsFed(arrivals);
        Witness(after.receivers[p.streamId], AcceptedOf(arrivals, p.streamId), k, from);
      }
    }
  }

  lemma Witness(r: Receiver, accepted: seq<Packet>, k: nat, key: Key)
    requires FedFrom(r, accepted, k, key)
    ensures IsFed(r, accepted)
  {}

  /** The receiver for a packet: the running one, or a new one. */
  function ReceiverFor(box: Inbox, p: Packet, key: Option<Key>): Receiver
    requires p.streamId in box.receivers || key.Some?
  {
    if p.streamId in box.receivers then box.receivers[p.streamId] else NewReceiver(p, key.value)
  }

  /** Where a packet shows: in its own stream's receiver and, if that completes, in a delivery. */
  lemma DemuxEffect(box: Inbox, p: Packet, key: Option<Key>)
    requires GoodInbox(box)
    ensures var after := Demux(box, p, key);
            && (forall id :: id in after.receivers && id != p.streamId ==>
                  id in box.receivers && after.receivers[id] == box.receivers[id])
            && (p.streamId !in box.receivers && key.None? ==> after == box)
            && (p.streamId in after.receivers <==>
                  Accepts(box, p, key) && !Receive(ReceiverFor(box, p, key), p).next.status.Completed?)
            && (after.delivered != box.delivered <==>
                  Accepts(box, p, key) && Receive(ReceiverFor(box, p, key), p).next.status.Completed?)
            && (p.streamId in after.receivers ==>
                  Accepts(box, p, key) && after.receivers[p.streamId] == Receive(ReceiverFor(box, p, key), p).next)
            && (after.delivered != box.delivered ==>
                  && Accepts(box, p, key) && !ReceiverFor(box, p, key).status.Completed?
                  && Receive(ReceiverFor(box, p, key), p).next.status.Completed?
                  && after.delivered
                     == box.delivered + [(p.streamId, Delivered(Receive(ReceiverFor(box, p, key), p).next))])
  {
    hide Receive, NewReceiver, Delivered;
    if key.Some? { NewReceiverParts(p, key.value); }
  }

  /** Accepting one more packet is feeding one more. */
  lemma {:induction false} AcceptedIsFed(arrivals: seq<Arrival>) returns (k: nat, from: Key)
    requires arrivals != []
    requires var last := |arrivals| - 1;
             && Accepts(DemuxAll(arrivals[..last]), arrivals[last].p, arrivals[last].key)
             && AllFed(arrivals[..last])
    ensures var last := |arrivals| - 1;
            var p, box := arrivals[last].p, DemuxAll(arrivals[..last]);
            var r := ReceiverFor(box, p, arrivals[last].key);
            var accepted := AcceptedOf(arrivals, p.streamId);
            && accepted == AcceptedOf(arrivals[..last], p.streamId) + [p] && k < |accepted|
            && Feed(NewReceiver(accepted[k], from), accepted[k..|accepted| - 1]) == Some(r)
            && FedFrom(Receive(r, p).next, accepted, k, from)
  {
    hide Receive, NewReceiver, DemuxAll, AcceptedOf;
    LastArrival(arrivals);
    var last := |arrivals| - 1;
    var init, p := arrivals[..last], arrivals[last].p;
    var box, earlier := DemuxAll(init), AcceptedOf(init, p.streamId);
    var accepted := earlier + [p];
    if p.streamId in box.receivers {
      k, from :| FedFrom(box.receivers[p.streamId], earlier, k, from);
      assert accepted[k..] == earlier[k..] + [p] && accepted[k..|accepted| - 1] == earlier[k..];
    } else {
      k, from := |earlier|, arrivals[last].key.value;
      assert accepted[k..] == [] + [p] && accepted[k..|accepted| - 1] == [];
    }
    var r := ReceiverFor(box, p, arrivals[last].key);
    FeedSplit(NewReceiver(accepted[k], from), accepted[k..|accepted| - 1], [p]);
    FeedOne(r, p);
  }

  /** A delivery is due to the last packet: it completed a receiver made from packet `k` of the
      accepted ones, which announced as many parts as the last accepted packets are, in order. */
  ghost predicate DueTo(arrivals: seq<Arrival>, delivery: (uint32, bytes), k: nat, key: Key) {
    && arrivals != [] && arrivals[|arrivals| - 1].p.streamId == delivery.0
    && var accepted := AcceptedOf(arrivals, delivery.0);
       && k < |accepted| && accepted[|accepted| - 1] == arrivals[|arrivals| - 1].p
       && accepted[|accepted| - 1].part == accepted[k].parts && EndsWithParts(accepted[k..], accepted[k].parts)
       && var r := Feed(NewReceiver(accepted[k], key), accepted[k..]);
          r.Some? && delivery.1 == Delivered(r.value)
  }

  /** The last packet was the last of all parts of its stream. */
  ghost predicate IsDue(arrivals: seq<Arrival>, delivery: (uint32, bytes)) {
    exists k, key :: DueTo(arrivals, delivery, k, key)
  }

  /** One packet delivers nothing, or one stream of which it was the last part, all parts having been
      accepted in order, whatever other streams sent in between. */
  lemma DeliversOnlyComplete(arrivals: seq<Arrival>)
    requires arrivals != []
    ensures var last := |arrivals| - 1;
            var before, after := DemuxAll(arrivals[..last]).delivered, DemuxAll(arrivals).delivered;
            after == before
            || (|after| == |before| + 1 && after[..|before|] == before && IsDue(arrivals, after[|before|]))
  {
    hide Receive, NewReceiver, Delivered, Demux, DemuxAll, AcceptedOf, AllFed, IsDue, DueTo;
    var last := |arrivals| - 1;
    var init, p, key := arrivals[..last], arrivals[last].p, arrivals[last].key;
    var box := DemuxAll(init);
    LastArrival(arrivals);
    RunningAreFed(init);
    DemuxEffect(box, p, key);
    if DemuxAll(arrivals).delivered != box.delivered {
      var k, from := AcceptedIsFed(arrivals);
      Due(arrivals, k, from, ReceiverFor(box, p, key));
    }
  }

  lemma {:induction false} Due(arrivals: seq<Arrival>, k: nat, from: Key, r: Receiver)
    requires arrivals != []
    requires var p := arrivals[|arrivals| - 1].p;
             var accepted := AcceptedOf(arrivals, p.streamId);
             && k < |accepted| && accepted[|accepted| - 1] == p
             && Feed(NewReceiver(accepted[k], from), accepted[k..|accepted| - 1]) == Some(r) && !r.status.Completed?
             && FedFrom(Receive(r, p).next, accepted, k, from) && Receive(r, p).next.status.Completed?
    ensures var p := arrivals[|arrivals| - 1].p; IsDue(arrivals, (p.streamId, Delivered(Receive(r, p).next)))
  {
    hide Receive, NewReceiver, Delivered, EndsWithParts, AcceptedOf;
    var p := arrivals[|arrivals| - 1].p;
    var accepted := AcceptedOf(arrivals, p.streamId);
    var ps := accepted[k..];
    assert ps[0] == accepted[k] && ps[..|ps| - 1] == accepted[k..|accepted| - 1] && ps[|ps| - 1] == p;
    LastPartCompletes(ps, from);
    assert DueTo(arrivals, (p.streamId, Delivered(Receive(r, p).next)), k, from);
  }

  /** So every delivery ever made was due to a packet that completed all parts of its stream. */
  lemma {:induction false} EveryDeliveryIsDue(arrivals: seq<Arrival>, i: nat) returns (n: nat)
    requires i < |DemuxAll(arrivals).delivered|
    ensures n <= |arrivals| && IsDue(arrivals[..n], DemuxAll(arrivals).delivered[i])
    decreases |arrivals|
  {
    hide IsDue, Demux;
    var last := |arrivals| - 1;
    DeliversOnlyComplete(arrivals);
    assert arrivals[..|arrivals|] == arrivals;
    if i < |DemuxAll(arrivals[..last]).delivered| {
      n := EveryDeliveryIsDue(arrivals[..last], i);
      assert arrivals[..last][..n] == arrivals[..n];
    } else {
      n := |arrivals|;
    }
  }

  // ----- two engines and a wire -----

  /** The system with its history: all streams ever posted, and per stream the number of packets
      emitted and accepted so far. */
  datatype System = System(
    senders: seq<Sender>, wire: seq<Packet>, box: Inbox,
    streams: map<uint32, Stream>, emitted: map<uint32, nat>, accepted: map<uint32, nat>)

  datatype Step =
    | Post(st: Stream)
    | SendCall(arrivals: seq<Stream>)
    | Deliver

  const INITIAL := System([], [], Inbox(map[], []), map[], map[], map[])

  /** A new stream has a fresh, non-zero id and a size within the receive bound. */
  predicate Postable(s: System, st: Stream) {
    st.id != 0 && st.id !in s.streams && 1 <= |st.data| <= MAX_STREAM
  }

  function PostStream(s: System, st: Stream): System {
    s.(senders := s.senders + [Start(st)], streams := s.streams[st.id := st],
       emitted := s.emitted[st.id := 0], accepted := s.accepted[st.id := 0])
  }

  predicate AllPostable(s: System, sts: seq<Stream>)
    decreases |sts|
  {
    sts == [] || (Postable(s, sts[0]) && AllPostable(PostStream(s, sts[0]), sts[1..]))
  }

  function PostAll(s: System, sts: seq<Stream>): System
    decreases |sts|
  {
    if sts == [] then s else PostAll(PostStream(s, sts[0]), sts[1..])
  }

  function Count(progress: map<uint32, nat>, ps: seq<Packet>): map<uint32, nat>
    decreases |ps|
  {
    if ps == [] then progress
    else
      var id := ps[0].streamId;
      Count(progress[id := 1 + if id in progress then progress[id] else 0], ps[1..])
  }

  function KeyFor(s: System, id: uint32): Option<Key> {
    if id in s.streams then Some(s.streams[id].key) else None
  }

  predicate Enabled(s: System, step: Step) {
    match step
    case Post(st) => Postable(s, st)
    case SendCall(arrivals) => Sendable(s.senders) && AllPostable(s, arrivals)
    case Deliver => s.wire != []
  }

  function Next(s: System, step: Step): System
    requires Enabled(s, step)
  {
    match step
    case Post(st) => PostStream(s, st)
    case SendCall(arrivals) =>
      var r := SendRound(s.senders);
      PostAll(s.(senders := r.senders, wire := s.wire + r.packets, emitted := Count(s.emitted, r.packets)),
              arrivals)
    case Deliver =>
      var p := s.wire[0];
      s.(wire := s.wire[1..], box := Demux(s.box, p, KeyFor(s, p.streamId)),
         accepted := Count(s.accepted, [p]))
  }

  // ----- the invariant -----

  /** The packets of one stream on the wire. */
  function Lane(wire: seq<Packet>, id: uint32): seq<Packet>
    decreases |wire|
  {
    if wire == [] then []
    else (if wire[0].streamId == id then [wire[0]] else []) + Lane(wire[1..], id)
  }

  /** What was handed over for one stream id. */
  function Handed(delivered: seq<(uint32, bytes)>, id: uint32): seq<bytes>
    decreases |delivered|
  {
    if delivered == [] then []
    else
      var last := |delivered| - 1;
      Handed(delivered[..last], id) + (if delivered[last].0 == id then [delivered[last].1] else [])
  }

  function Between(st: Stream, from: nat, to: nat): seq<Packet>
    requires from <= to < TWO_32
  {
    seq(to - from, i requires 0 <= i < to - from => PacketOf(st, from + i + 1))
  }

  predicate HasSender(ss: seq<Sender>, id: uint32) {
    exists i :: 0 <= i < |ss| && ss[i].id == id
  }

  ghost predicate StreamInv(s: System, id: uint32)
    requires id in s.streams && id in s.emitted && id in s.accepted
  {
    var st := s.streams[id];
    var e, a := s.emitted[id], s.accepted[id];
    && st.id == id && 1 <= |st.data| <= MAX_STREAM
    && a <= e <= Parts(st)
    && Lane(s.wire, id) == Between(st, a, e)
    && (id in s.box.receivers <==> 0 < a < Parts(st))
    && (0 < a < Parts(st) ==> s.box.receivers[id] == ReceiverAt(st, a))
    && Handed(s.box.delivered, id) == (if a == Parts(st) then [st.data] else [])
    && (e < Parts(st) ==> HasSender(s.senders, id))
  }

  ghost predicate SenderInv(s: System, i: nat)
    requires i < |s.senders|
  {
    var id := s.senders[i].id;
    && id in s.streams && id in s.emitted && s.emitted[id] < Parts(s.streams[id])
    && s.senders[i] == SenderAt(s.streams[id], s.emitted[id])
  }

  ghost predicate Inv(s: System) {
    && s.emitted.Keys == s.streams.Keys == s.accepted.Keys
    && (forall id :: id in s.streams ==> StreamInv(s, id))
    && (forall i :: 0 <= i < |s.senders| ==> SenderInv(s, i))
    && (forall i, j :: 0 <= i < j < |s.senders| ==> s.senders[i].id != s.senders[j].id)
    && (forall p :: p in s.wire ==> p.streamId in s.streams)
    && (forall id :: id in s.box.receivers ==> id in s.streams)
    && (forall d :: d in s.box.delivered ==> d.0 in s.streams)
  }

  // ----- the invariant is kept by every step -----

  lemma InitialInv()
    ensures Inv(INITIAL)
  {}

  lemma {:induction false} LaneAppend(a: seq<Packet>, b: seq<Packet>, id: uint32)
    ensures Lane(a + b, id) == Lane(a, id) + Lane(b, id)
    decreases |a|
  {
    if a == [] {
      assert a + b == b;
    } else {
      assert (a + b)[0] == a[0] && (a + b)[1..] == a[1..] + b;
      LaneAppend(a[1..], b, id);
    }
  }

  lemma {:induction false} LaneStranger(wire: seq<Packet>, id: uint32)
    requires forall p :: p in wire ==> p.streamId != id
    ensures Lane(wire, id) == []
    decreases |wire|
  {
    if wire != [] {
      assert wire[0] in wire;
      LaneStranger(wire[1..], id);
    }
  }

  lemma {:induction false} HandedStranger(delivered: seq<(uint32, bytes)>, id: uint32)
    requires forall d :: d in delivered ==> d.0 != id
    ensures Handed(delivered, id) == []
    decreases |delivered|
  {
    if delivered != [] {
      assert delivered[|delivered| - 1] in delivered;
      HandedStranger(delivered[..|delivered| - 1], id);
    }
  }

  lemma HandedAppend(delivered: seq<(uint32, bytes)>, d: (uint32, bytes), id: uint32)
    ensures Handed(delivered + [d], id) == Handed(delivered, id) + (if d.0 == id then [d.1] else [])
  {
    assert (delivered + [d])[..|delivered|] == delivered;
  }

  lemma PostKeeps(s: System, st: Stream)
    requires Inv(s) && Postable(s, st)
    ensures Inv(PostStream(s, st))
  {
    hide SenderAt, StreamInv, Parts, Start, HasSender;
    var s' := PostStream(s, st);
    StartIsFirst(st);
    SenderAtFacts(st, 0);
    forall id | id in s'.streams ensures StreamInv(s', id) {
      if id == st.id { PostedInv(s, st); } else { PostOther(s, st, id); }
    }
    forall i | 0 <= i < |s'.senders| ensures SenderInv(s', i) {
      if i < |s.senders| {
        assert SenderInv(s, i);
      } else {
        PartBounds(|st.data|);
        assert Parts(st) > 0 by { SomeParts(st); }
      }
    }
    forall i, j | 0 <= i < j < |s'.senders| ensures s'.senders[i].id != s'.senders[j].id {
      assert SenderInv(s, i);
    }
  }

  lemma SomeParts(st: Stream)
    requires |st.data| >= 1
    ensures Parts(st) >= 1
  {
    PartBounds(|st.data|);
  }

  lemma PostedInv(s: System, st: Stream)
    requires Inv(s) && Postable(s, st)
    ensures StreamInv(PostStream(s, st), st.id)
  {
    var s' := PostStream(s, st);
    SomeParts(st);
    LaneStranger(s.wire, st.id);
    HandedStranger(s.box.delivered, st.id);
    assert Between(st, 0, 0) == [];
    assert s'.senders[|s.senders|].id == st.id;
  }

  lemma PostOther(s: System, st: Stream, id: uint32)
    requires Inv(s) && Postable(s, st) && id in s.streams
    ensures StreamInv(PostStream(s, st), id)
  {
    hide ReceiverAt, Lane, Handed, Parts, Start, Between;
    var s' := PostStream(s, st);
    assert StreamInv(s, id);
    if HasSender(s.senders, id) {
      var i :| 0 <= i < |s.senders| && s.senders[i].id == id;
      assert s'.senders[i].id == id;
    }
  }

  /** The system after the sender at position `i` has been served. */
  function EmitAt(s: System, i: nat): System
    requires i < |s.senders| && Sendable(s.senders)
  {
    var sent := Send(s.senders[i]);
    var served := s.senders[i := sent.next];
    var out := if sent.packet.Some? then [sent.packet.value] else [];
    s.(senders := if sent.next.status.Completed? then RemoveAt(served, i) else served,
       wire := s.wire + out, emitted := Count(s.emitted, out))
  }

  lemma InvSendable(s: System)
    requires Inv(s)
    ensures Sendable(s.senders)
  {
    forall i | 0 <= i < |s.senders| ensures |s.senders[i].data| < TWO_32 {
      assert SenderInv(s, i);
    }
  }

  lemma BetweenNext(st: Stream, a: nat, e: nat)
    requires a <= e < TWO_32 - 1
    ensures Between(st, a, e) + [PacketOf(st, e + 1)] == Between(st, a, e + 1)
    ensures Between(st, a, e + 1) == [PacketOf(st, a + 1)] + Between(st, a + 1, e + 1)
  {}

  lemma EmitKeeps(s: System, i: nat)
    requires Inv(s) && i < |s.senders|
    ensures Sendable(s.senders) && Send(s.senders[i]).ok && Send(s.senders[i]).packet.Some?
    ensures Inv(EmitAt(s, i))
  {
    hide Send, SenderAt, PacketOf, StreamInv, SenderInv, Parts, HasSender;
    InvSendable(s);
    EmitShape(s, i);
    var s' := EmitAt(s, i);
    SurvivorsKept(s.senders, s'.senders, i);
    forall id' | id' in s'.streams ensures StreamInv(s', id') {
      EmitLane(s, s', i, id');
    }
    forall j | 0 <= j < |s'.senders| ensures SenderInv(s', j) {
      EmitSender(s, s', i, j);
    }
  }

  lemma EmitSender(s: System, s': System, i: nat, j: nat)
    requires Inv(s) && i < |s.senders| && Sendable(s.senders) && s' == EmitAt(s, i) && j < |s'.senders|
    ensures SenderInv(s', j)
  {
    hide Send, SenderAt, PacketOf, StreamInv, Parts, EmitAt;
    EmitShape(s, i);
    var id := s.senders[i].id;
    if s.emitted[id] + 1 == Parts(s.streams[id]) {
      assert SenderInv(s, if j < i then j else j + 1);
    } else if j != i {
      assert SenderInv(s, j);
    }
  }

  lemma ServedIs(s: System, i: nat)
    requires Inv(s) && i < |s.senders|
    ensures var id := s.senders[i].id;
            && id in s.streams && id in s.emitted && s.streams[id].id == id
            && s.emitted[id] < Parts(s.streams[id]) && Parts(s.streams[id]) <= 65536
            && s.senders[i] == SenderAt(s.streams[id], s.emitted[id])
            && 0 < |s.streams[id].data| < TWO_32
  {
    hide Send, SenderAt, PacketOf, Lane, Handed, Count;
    assert SenderInv(s, i) && StreamInv(s, s.senders[i].id);
    PartBounds(|s.streams[s.senders[i].id].data|);
  }

  /** Serving position `i` emits the next packet of its stream and moves the sender on or out. */
  lemma EmitShape(s: System, i: nat)
    requires Inv(s) && i < |s.senders| && Sendable(s.senders)
    ensures Send(s.senders[i]).ok && Send(s.senders[i]).packet.Some?
    ensures var id := s.senders[i].id;
            && id in s.streams && id in s.emitted && s.emitted[id] < Parts(s.streams[id])
            && Parts(s.streams[id]) <= 65536
    ensures var id := s.senders[i].id;
            var st, e, s' := s.streams[id], s.emitted[id], EmitAt(s, i);
            && PacketOf(st, e + 1).streamId == st.id == id
            && SenderAt(st, e + 1).id == id
            && s' == s.(wire := s.wire + [PacketOf(st, e + 1)], emitted := s.emitted[id := e + 1],
                        senders := if e + 1 == Parts(st) then RemoveAt(s.senders, i)
                                   else s.senders[i := SenderAt(st, e + 1)])
  {
    hide Send, SenderAt, PacketOf, Inv, StreamInv, SenderInv, HasSender, Lane, Handed, Count;
    ServedIs(s, i);
    var id := s.senders[i].id;
    var st, e := s.streams[id], s.emitted[id];
    SendStep(st, e);
    PartBounds(|st.data|);
    SenderAtFacts(st, e + 1);
    PacketOfId(st, e + 1);
    var next, p := SenderAt(st, e + 1), PacketOf(st, e + 1);
    assert RemoveAt(s.senders[i := next], i) == RemoveAt(s.senders, i);
    CountOne(s.emitted, p);
  }

  lemma CountOne(progress: map<uint32, nat>, p: Packet)
    ensures Count(progress, [p])
         == progress[p.streamId := 1 + if p.streamId in progress then progress[p.streamId] else 0]
  {
    assert [p][1..] == [];
  }

  lemma EmitLane(s: System, s': System, i: nat, id': uint32)
    requires Inv(s) && i < |s.senders| && Sendable(s.senders) && s' == EmitAt(s, i) && id' in s.streams
    requires id' in s'.emitted
    requires forall id :: id != s.senders[i].id && HasSender(s.senders, id) ==> HasSender(s'.senders, id)
    requires |s'.senders| == |s.senders| ==> HasSender(s'.senders, s.senders[i].id)
    ensures StreamInv(s', id')
  {
    hide Send, SenderAt, ReceiverAt, PacketOf, Lane, Handed, Between, Parts, EmitAt, HasSender;
    EmitShape(s, i);
    var id := s.senders[i].id;
    var st, e := s.streams[id], s.emitted[id];
    var p := PacketOf(st, e + 1);
    assert StreamInv(s, id');
    LaneAppend(s.wire, [p], id');
    OneLane(p, id');
    if id' == id { BetweenNext(st, s.accepted[id], e); }
  }

  lemma OneLane(p: Packet, id: uint32)
    ensures Lane([p], id) == if p.streamId == id then [p] else []
  {
    assert [p][1..] == [];
    assert Lane([], id) == [];
  }

  lemma SenderAtFacts(st: Stream, k: nat)
    requires k <= Parts(st)
    ensures SenderAt(st, k).id == st.id && SenderAt(st, k).part == k && SenderAt(st, k).parts == Parts(st)
    ensures SenderAt(st, k).status.Completed? <==> k == Parts(st) && k > 0
  {}

  lemma PacketOfId(st: Stream, k: nat)
    requires 1 <= k < TWO_32
    ensures PacketOf(st, k).streamId == st.id
  {}

  /** Serving one sender leaves the other senders findable and all ids distinct. */
  lemma SurvivorsKept(ss: seq<Sender>, ss': seq<Sender>, i: nat)
    requires i < |ss|
    requires forall j, k :: 0 <= j < k < |ss| ==> ss[j].id != ss[k].id
    requires ss' == RemoveAt(ss, i)
          || (|ss'| == |ss| && ss' == ss[i := ss'[i]] && ss'[i].id == ss[i].id)
    ensures forall j, k :: 0 <= j < k < |ss'| ==> ss'[j].id != ss'[k].id
    ensures forall id :: id != ss[i].id && HasSender(ss, id) ==> HasSender(ss', id)
    ensures |ss'| == |ss| ==> HasSender(ss', ss[i].id)
  {
    forall id | id != ss[i].id && HasSender(ss, id) ensures HasSender(ss', id) {
      var j :| 0 <= j < |ss| && ss[j].id == id;
      var k := if |ss'| < |ss| && j > i then j - 1 else j;
      assert ss'[k].id == id;
    }
    if |ss'| == |ss| { assert ss'[i].id == ss[i].id; }
  }

  /** The system after a round's senders and packets. */
  function Apply(s: System, r: Round): System {
    s.(senders := r.senders, wire := s.wire + r.packets, emitted := Count(s.emitted, r.packets))
  }

  /** A round is a chain of served senders. */
  lemma {:induction false} RoundKeeps(s: System, i: nat, accept: seq<bool>)
    requires Inv(s) && i <= |s.senders| && |s.senders| - i <= |accept|
    requires forall n :: 0 <= n < |accept| ==> accept[n]
    ensures Sendable(s.senders) && Inv(Apply(s, RoundFrom(s.senders, i, accept)))
    decreases |s.senders| - i
  {
    hide Send, Inv;
    InvSendable(s);
    if i == |s.senders| {
      assert Apply(s, Round(s.senders, [])) == s;
    } else {
      EmitKeeps(s, i);
      var s1 := EmitAt(s, i);
      if !Send(s.senders[i]).next.status.Completed? {
        RoundKeeps(s1, i + 1, accept[1..]);
        ApplyChain(s, s1, Send(s.senders[i]).packet.value, RoundFrom(s1.senders, i + 1, accept[1..]));
      }
    }
  }

  lemma ApplyChain(s: System, s1: System, p: Packet, rest: Round)
    requires s1 == s.(senders := s1.senders, wire := s.wire + [p], emitted := Count(s.emitted, [p]))
    ensures Apply(s1, rest) == Apply(s, Round(rest.senders, [p] + rest.packets))
  {
    assert s.wire + ([p] + rest.packets) == s.wire + [p] + rest.packets;
    assert ([p] + rest.packets)[1..] == rest.packets;
    CountOne(s.emitted, p);
  }

  lemma {:induction false} PostAllKeeps(s: System, sts: seq<Stream>)
    requires Inv(s) && AllPostable(s, sts)
    ensures Inv(PostAll(s, sts))
    decreases |sts|
  {
    if sts != [] {
      PostKeeps(s, sts[0]);
      PostAllKeeps(PostStream(s, sts[0]), sts[1..]);
    }
  }

  /** Whether streams can be posted depends only on the streams posted before. */
  lemma {:induction false} PostableAfterRound(s: System, s': System, sts: seq<Stream>)
    requires AllPostable(s, sts) && s'.streams == s.streams
    ensures AllPostable(s', sts)
    decreases |sts|
  {
    if sts != [] {
      PostableAfterRound(PostStream(s, sts[0]), PostStream(s', sts[0]), sts[1..]);
    }
  }

  lemma DeliverKeeps(s: System)
    requires Inv(s) && s.wire != []
    ensures Inv(Next(s, Deliver))
  {
    hide StreamInv, SenderInv, Demux, Receive, NewReceiver;
    var s' := Next(s, Deliver);
    DeliverShape(s);
    forall id | id in s'.streams ensures StreamInv(s', id) {
      DeliverLane(s, id);
    }
    forall i | 0 <= i < |s'.senders| ensures SenderInv(s', i) {
      DeliverSender(s, i);
    }
  }

  lemma DeliverSender(s: System, i: nat)
    requires Inv(s) && s.wire != [] && i < |s.senders|
    ensures SenderInv(Next(s, Deliver), i)
  {
    hide Demux;
    assert SenderInv(s, i);
  }

  /** The packet at the head of the wire is the next one of its stream, and is accepted. */
  lemma DeliverShape(s: System)
    requires Inv(s) && s.wire != []
    ensures var p := s.wire[0];
            var id := p.streamId;
            && id in s.streams && id in s.accepted && id in s.emitted
            && s.accepted[id] < s.emitted[id] <= Parts(s.streams[id]) <= 65536
    ensures var p := s.wire[0];
            var id := p.streamId;
            var st, a, s' := s.streams[id], s.accepted[id], Next(s, Deliver);
            && Lane(s.wire[1..], id) == Between(st, a + 1, s.emitted[id])
            && s' == s.(wire := s.wire[1..], accepted := s.accepted[id := a + 1],
                        box := if a + 1 == Parts(st)
                               then Inbox(s.box.receivers - {id}, s.box.delivered + [(id, st.data)])
                               else s.box.(receivers := s.box.receivers[id := ReceiverAt(st, a + 1)]))
  {
    hide Demux, Receive, NewReceiver, ReceiverAt, PacketOf, Parts;
    DeliverHead(s);
    var p := s.wire[0];
    var id := p.streamId;
    var st, a := s.streams[id], s.accepted[id];
    assert StreamInv(s, id);
    CountOne(s.accepted, p);
    DemuxNext(s.box, st, a);
  }

  lemma DeliverHead(s: System)
    requires Inv(s) && s.wire != []
    ensures var p := s.wire[0];
            var id := p.streamId;
            && id in s.streams && id in s.accepted && id in s.emitted
            && s.accepted[id] < s.emitted[id] <= Parts(s.streams[id]) <= 65536
            && p == PacketOf(s.streams[id], s.accepted[id] + 1)
            && Lane(s.wire[1..], id) == Between(s.streams[id], s.accepted[id] + 1, s.emitted[id])
  {
    hide ReceiverAt, PacketOf, Handed, HasSender;
    var p := s.wire[0];
    assert p in s.wire;
    var id := p.streamId;
    assert StreamInv(s, id);
    var st, a, e := s.streams[id], s.accepted[id], s.emitted[id];
    PartBounds(|st.data|);
    var lane := Lane(s.wire[1..], id);
    assert Lane(s.wire, id) == [p] + lane;
    HeadOf(st, a, e, p, lane);
  }

  lemma HeadOf(st: Stream, a: nat, e: nat, p: Packet, lane: seq<Packet>)
    requires a <= e < TWO_32 - 1 && Between(st, a, e) == [p] + lane
    ensures a < e && p == PacketOf(st, a + 1) && lane == Between(st, a + 1, e)
  {
    assert |Between(st, a, e)| == e - a == 1 + |lane|;
    BetweenNext(st, a, e - 1);
    assert ([p] + lane)[0] == p && ([p] + lane)[1..] == lane;
    assert ([PacketOf(st, a + 1)] + Between(st, a + 1, e))[1..] == Between(st, a + 1, e);
  }

  /** The demultiplexer on the next packet of a stream it is in step with. */
  lemma DemuxNext(box: Inbox, st: Stream, a: nat)
    requires 1 <= |st.data| <= MAX_STREAM && a < Parts(st)
    requires st.id in box.receivers <==> 0 < a
    requires 0 < a ==> box.receivers[st.id] == ReceiverAt(st, a)
    ensures Demux(box, PacketOf(st, a + 1), Some(st.key)) ==
              if a + 1 == Parts(st)
              then Inbox(box.receivers - {st.id}, box.delivered + [(st.id, st.data)])
              else box.(receivers := box.receivers[st.id := ReceiverAt(st, a + 1)])
  {
    hide Receive, NewReceiver, ReceiverAt, Delivered;
    var p := PacketOf(st, a + 1);
    if a == 0 { ReceiveFirst(st); } else { ReceiveNext(st, a); }
    ReceiverAtFacts(st, a + 1);
    var r := if a == 0 then NewReceiver(p, st.key) else ReceiverAt(st, a);
    assert r.id == st.id by { if a == 0 { NewReceiverId(p, st.key); } else { ReceiverAtFacts(st, a); } }
    assert Receive(r, p) == Received(ReceiverAt(st, a + 1), true);
    if a + 1 == Parts(st) { CompletedDelivers(st); }
  }

  lemma NewReceiverId(p: Packet, key: Key)
    ensures NewReceiver(p, key).id == p.streamId
  {}

  lemma ReceiverAtFacts(st: Stream, k: nat)
    requires 1 <= k <= Parts(st) && |st.data| <= MAX_STREAM
    ensures ReceiverAt(st, k).id == st.id
    ensures ReceiverAt(st, k).status.Completed? <==> k == Parts(st)
  {}

  lemma DeliverLane(s: System, id': uint32)
    requires Inv(s) && s.wire != [] && id' in s.streams
    ensures var s' := Next(s, Deliver);
            id' in s'.streams && id' in s'.emitted && id' in s'.accepted && StreamInv(s', id')
  {
    hide Demux, ReceiverAt, PacketOf, Handed, HasSender, Between, Parts;
    DeliverShape(s);
    assert StreamInv(s, id');
    var id := s.wire[0].streamId;
    HandedAppend(s.box.delivered, (id, s.streams[id].data), id');
  }

  /** Every step of the joined system keeps the invariant. */
  lemma StepKeeps(s: System, step: Step)
    requires Inv(s) && Enabled(s, step)
    ensures Inv(Next(s, step))
  {
    hide Inv, Demux;
    match step
    case Post(st) => PostKeeps(s, st);
    case SendCall(arrivals) =>
      RoundKeeps(s, 0, Yes(|s.senders|));
      var s1 := Apply(s, SendRound(s.senders));
      PostableAfterRound(s, s1, arrivals);
      PostAllKeeps(s1, arrivals);
    case Deliver => DeliverKeeps(s);
  }

  // ----- every run -----

  predicate Runnable(s: System, steps: seq<Step>)
    decreases |steps|
  {
    steps == [] || (Enabled(s, steps[0]) && Runnable(Next(s, steps[0]), steps[1..]))
  }

  function Run(s: System, steps: seq<Step>): System
    requires Runnable(s, steps)
    decreases |steps|
  {
    if steps == [] then s else Run(Next(s, steps[0]), steps[1..])
  }

  lemma {:induction false} RunKeeps(s: System, steps: seq<Step>)
    requires Inv(s) && Runnable(s, steps)
    ensures Inv(Run(s, steps))
    decreases |steps|
  {
    hide Inv, Enabled, Next;
    if steps != [] {
      StepKeeps(s, steps[0]);
      RunKeeps(Next(s, steps[0]), steps[1..]);
    }
  }

  /** In every run, whatever the interleaving: a stream is handed over at most once and only with
      its own bytes, and what is on the wire for it is an in-order stretch of its parts. */
  lemma NothingWrongIsDelivered(steps: seq<Step>, id: uint32)
    requires Runnable(INITIAL, steps)
    ensures var s := Run(INITIAL, steps);
            if id in s.streams then
              && (Handed(s.box.delivered, id) == [] || Handed(s.box.delivered, id) == [s.streams[id].data])
              && exists a: nat, e: nat :: a <= e < TWO_32 && Lane(s.wire, id) == Between(s.streams[id], a, e)
            else Handed(s.box.delivered, id) == [] && Lane(s.wire, id) == []
  {
    InitialInv();
    RunKeeps(INITIAL, steps);
    var s := Run(INITIAL, steps);
    if id in s.streams {
      assert StreamInv(s, id);
      PartBounds(|s.streams[id].data|);
      assert s.accepted[id] <= s.emitted[id] < TWO_32;
    } else {
      HandedStranger(s.box.delivered, id);
      LaneStranger(s.wire, id);
    }
  }

  /** A run that has sent and received everything has delivered every posted stream exactly once,
      with its original bytes, and keeps no receiver. */
  lemma QuietMeansDelivered(steps: seq<Step>)
    requires Runnable(INITIAL, steps)
    requires Run(INITIAL, steps).senders == [] && Run(INITIAL, steps).wire == []
    ensures var s := Run(INITIAL, steps);
            && (forall id :: id in s.streams ==> Handed(s.box.delivered, id) == [s.streams[id].data])
            && s.box.receivers == map[]
  {
    InitialInv();
    RunKeeps(INITIAL, steps);
    var s := Run(INITIAL, steps);
    forall id | id in s.streams
      ensures Handed(s.box.delivered, id) == [s.streams[id].data] && id !in s.box.receivers
    {
      assert StreamInv(s, id);
      var st, a, e := s.streams[id], s.accepted[id], s.emitted[id];
      assert Lane(s.wire, id) == [];
      assert |Between(st, a, e)| == e - a;
    }
  }

  // ----- the scheduler bound -----

  /** Serving later senders leaves position `p` alone. */
  lemma {:induction false} RestKeeps(ss: seq<Sender>, i: nat, accept: seq<bool>, p: nat)
    requires Sendable(ss) && p < i <= |ss| && |ss| - i <= |accept|
    ensures var r := RoundFrom(ss, i, accept).senders; p < |r| && r[p] == ss[p]
    decreases |ss| - i
  {
    hide Send;
    if i < |ss| {
      var sent := Send(ss[i]);
      var served := ss[i := sent.next];
      if sent.ok && !(sent.packet.Some? && !accept[0]) && !sent.next.status.Completed? {
        SendKeepsData(ss[i]);
        RestKeeps(served, i + 1, if sent.packet.Some? then accept[1..] else accept, p);
      }
    }
  }

  lemma SendKeepsData(s: Sender)
    requires |s.data| < TWO_32
    ensures |Send(s).next.data| < TWO_32
  {}

  /** The sender with this id stands at `p` and needs `left` more calls at most. */
  ghost predicate Needs(s: System, id: uint32, left: int) {
    && id in s.streams && id in s.emitted
    && (s.emitted[id] == Parts(s.streams[id])
        || exists p :: 0 <= p < |s.senders| && s.senders[p].id == id
                       && p + Parts(s.streams[id]) - s.emitted[id] <= left)
  }

  lemma EmitMoves(s: System, i: nat, p: nat)
    requires Inv(s) && i < |s.senders| && p < |s.senders| && Sendable(s.senders)
    ensures var id, s1 := s.senders[p].id, EmitAt(s, i);
            && id in s1.emitted && s1.streams == s.streams && id in s.emitted && id in s.streams
            && s1.emitted[id] == s.emitted[id] + (if i == p then 1 else 0)
            && ((i == p && s1.emitted[id] == Parts(s.streams[id]) && |s1.senders| < |s.senders|)
                || (if |s1.senders| < |s.senders| && i < p
                    then |s1.senders| == |s.senders| - 1 && s1.senders[p - 1].id == id
                    else p < |s1.senders| && s1.senders[p].id == id))
            && (|s1.senders| < |s.senders| <==> Send(s.senders[i]).next.status.Completed?)
  {
    hide Send, SenderAt, PacketOf, StreamInv, Parts, EmitAt;
    EmitShape(s, i);
    assert SenderInv(s, p);
    SendCompletes(s, i);
  }

  lemma SendCompletes(s: System, i: nat)
    requires Inv(s) && i < |s.senders| && Sendable(s.senders)
    ensures |EmitAt(s, i).senders| < |s.senders| <==> Send(s.senders[i]).next.status.Completed?
  {}

  /** One round with every packet taken brings the sender at `p` one step closer to its end: an
      earlier sender left, or it has one part less to send. */
  lemma {:induction false} RoundCloser(s: System, i: nat, accept: seq<bool>, p: nat)
    requires Inv(s) && i <= p < |s.senders| && |s.senders| - i <= |accept|
    requires forall n :: 0 <= n < |accept| ==> accept[n]
    ensures Sendable(s.senders)
    ensures var id := s.senders[p].id;
            id in s.streams && id in s.emitted
            && Needs(Apply(s, RoundFrom(s.senders, i, accept)), id, p + Parts(s.streams[id]) - s.emitted[id] - 1)
    decreases |s.senders| - i
  {
    hide Send, Inv, EmitAt;
    InvSendable(s);
    EmitKeeps(s, i);
    EmitMoves(s, i, p);
    var s1, sent := EmitAt(s, i), Send(s.senders[i]);
    EmitIsServed(s, i);
    InvSendable(s1);
    if !sent.next.status.Completed? {
      var r := RoundFrom(s1.senders, i + 1, accept[1..]);
      RoundKeeps(s1, i + 1, accept[1..]);
      ApplyChain(s, s1, sent.packet.value, r);
      if i < p {
        RoundCloser(s1, i + 1, accept[1..], p);
      } else {
        RestKeeps(s1.senders, i + 1, accept[1..], p);
        SameSenderSameCount(s1, Apply(s1, r), p);
        var id, s' := s.senders[p].id, Apply(s1, r);
        assert s'.senders[p].id == id && s'.emitted[id] == s.emitted[id] + 1;
      }
    }
  }

  lemma EmitIsServed(s: System, i: nat)
    requires Inv(s) && i < |s.senders| && Sendable(s.senders)
    requires Send(s.senders[i]).ok && Send(s.senders[i]).packet.Some?
    ensures var sent, s1 := Send(s.senders[i]), EmitAt(s, i);
            s1 == s.(senders := if sent.next.status.Completed? then RemoveAt(s.senders[i := sent.next], i)
                                else s.senders[i := sent.next],
                     wire := s.wire + [sent.packet.value], emitted := Count(s.emitted, [sent.packet.value]))
  {}

  /** A sender knows how many packets were emitted. */
  lemma SameSenderSameCount(s: System, s': System, p: nat)
    requires Inv(s) && Inv(s') && p < |s.senders| && p < |s'.senders|
    requires s.senders[p] == s'.senders[p] && s.streams == s'.streams
    ensures var id := s.senders[p].id;
            id in s.emitted && id in s'.emitted && s.emitted[id] == s'.emitted[id]
  {
    assert SenderInv(s, p) && SenderInv(s', p);
  }

  lemma {:induction false} PostAllNeeds(s: System, sts: seq<Stream>, id: uint32, left: int)
    requires Needs(s, id, left) && AllPostable(s, sts)
    ensures Needs(PostAll(s, sts), id, left)
    decreases |sts|
  {
    if sts != [] {
      PostNeeds(s, sts[0], id, left);
      PostAllNeeds(PostStream(s, sts[0]), sts[1..], id, left);
    }
  }

  lemma PostNeeds(s: System, st: Stream, id: uint32, left: int)
    requires Needs(s, id, left) && Postable(s, st)
    ensures Needs(PostStream(s, st), id, left)
  {
    var s' := PostStream(s, st);
    if s.emitted[id] != Parts(s.streams[id]) {
      var p :| 0 <= p < |s.senders| && s.senders[p].id == id
               && p + Parts(s.streams[id]) - s.emitted[id] <= left;
      assert s'.senders[p].id == id;
    }
  }

  /** A call of the scheduler uses up one of the calls a sender needs; no other step adds any. */
  lemma StepNeeds(s: System, step: Step, id: uint32, left: int)
    requires Inv(s) && Enabled(s, step) && Needs(s, id, left)
    ensures Needs(Next(s, step), id, if step.SendCall? then left - 1 else left)
  {
    match step
    case Post(st) => PostNeeds(s, st, id, left);
    case Deliver =>
    case SendCall(arrivals) =>
      var s1 := Apply(s, SendRound(s.senders));
      RoundKeeps(s, 0, Yes(|s.senders|));
      PostableAfterRound(s, s1, arrivals);
      if s.emitted[id] == Parts(s.streams[id]) {
        FinishedStays(s, s1, id);
      } else {
        var p :| 0 <= p < |s.senders| && s.senders[p].id == id
                 && p + Parts(s.streams[id]) - s.emitted[id] <= left;
        RoundCloser(s, 0, Yes(|s.senders|), p);
      }
      PostAllNeeds(s1, arrivals, id, left - 1);
  }

  /** Emission only counts up, and never beyond the parts. */
  lemma FinishedStays(s: System, s1: System, id: uint32)
    requires Inv(s) && Inv(s1) && s1.streams == s.streams && id in s.streams
    requires Sendable(s.senders) && s1 == Apply(s, SendRound(s.senders))
    requires s.emitted[id] == Parts(s.streams[id])
    ensures s1.emitted[id] == Parts(s.streams[id])
  {
    CountGrows(s.emitted, SendRound(s.senders).packets, id);
    assert StreamInv(s1, id);
  }

  lemma {:induction false} CountGrows(progress: map<uint32, nat>, ps: seq<Packet>, id: uint32)
    requires id in progress
    ensures id in Count(progress, ps) && Count(progress, ps)[id] >= progress[id]
    decreases |ps|
  {
    if ps != [] {
      var id' := ps[0].streamId;
      CountGrows(progress[id' := 1 + if id' in progress then progress[id'] else 0], ps[1..], id);
    }
  }

  function Calls(steps: seq<Step>): nat {
    if steps == [] then 0 else (if steps[0].SendCall? then 1 else 0) + Calls(steps[1..])
  }

  /** A sender at list position `p` with `r` parts left has sent everything after at most `p + r`
      calls of the scheduler, whatever else happens in between and however many senders join. */
  lemma {:induction false} FinishedWithin(s: System, steps: seq<Step>, p: nat)
    requires Inv(s) && Runnable(s, steps) && p < |s.senders|
    requires Calls(steps) >= p + s.senders[p].parts - s.senders[p].part
    ensures var id := s.senders[p].id;
            var s' := Run(s, steps);
            id in s'.streams && id in s'.emitted && s'.emitted[id] == Parts(s'.streams[id])
            && !HasSender(s'.senders, id)
  {
    hide Run, Runnable, StreamInv, Parts, Calls;
    var id := s.senders[p].id;
    assert SenderInv(s, p);
    SenderAtFacts(s.streams[id], s.emitted[id]);
    var left := p + Parts(s.streams[id]) - s.emitted[id];
    NeedsAfter(s, steps, id, left);
    RunKeeps(s, steps);
    NoneLeft(Run(s, steps), id, left - Calls(steps));
  }

  lemma ListedIsUnfinished(s: System, id: uint32)
    requires Inv(s) && HasSender(s.senders, id)
    ensures id in s.streams && id in s.emitted && s.emitted[id] < Parts(s.streams[id])
  {
    var q :| 0 <= q < |s.senders| && s.senders[q].id == id;
    assert SenderInv(s, q);
  }

  lemma NoneLeft(s: System, id: uint32, left: int)
    requires Inv(s) && Needs(s, id, left) && left <= 0
    ensures s.emitted[id] == Parts(s.streams[id]) && !HasSender(s.senders, id)
  {
    hide Inv, Parts;
    if HasSender(s.senders, id) { ListedIsUnfinished(s, id); }
  }

  lemma {:induction false} NeedsAfter(s: System, steps: seq<Step>, id: uint32, left: int)
    requires Inv(s) && Runnable(s, steps) && Needs(s, id, left)
    ensures Needs(Run(s, steps), id, left - Calls(steps))
    decreases |steps|
  {
    if steps != [] {
      StepKeeps(s, steps[0]);
      StepNeeds(s, steps[0], id, left);
      NeedsAfter(Next(s, steps[0]), steps[1..], id, if steps[0].SendCall? then left - 1 else left);
    }
  }
}
