/** The engine object: the list of senders served round by round, the send queue filled with
    copied bodies, and the map of running receivers. */
module Engine {
  import opened Options
  import opened Bytes
  import opened Aes
  import opened Streams
  import opened EngineModel
  import opened StreamObjects

  // ----- values of object lists -----

  ghost function Values(ss: seq<StreamSender>): (r: seq<Sender>)
    requires forall s :: s in ss ==> s.Valid()
    reads ss, set s | s in ss :: s.source.data, set s | s in ss && s.cipher != null :: s.cipher
    ensures |r| == |ss| && Sendable(r)
  {
    var r := seq(|ss|, i requires 0 <= i < |ss|
      reads ss, set s | s in ss :: s.source.data, set s | s in ss && s.cipher != null :: s.cipher => ss[i].Value());
    assert forall i :: 0 <= i < |r| ==> |r[i].data| < TWO_32 by {
      forall i | 0 <= i < |r| ensures |r[i].data| < TWO_32 {
        assert ss[i] in ss && ss[i].Valid() && r[i] == ss[i].Value();
      }
    }
    r
  }

  ghost predicate ValidRefs(ps: seq<PacketRef>) {
    forall k :: 0 <= k < |ps| ==> ps[k].Valid()
  }

  ghost function PacketValues(ps: seq<PacketRef>): (r: seq<Packet>)
    requires ValidRefs(ps)
    reads set p | p in ps :: p.body.data
    ensures |r| == |ps|
  {
    seq(|ps|, k requires 0 <= k < |ps| reads set p | p in ps :: p.body.data => ps[k].Value())
  }

  /** Everything the senders may change. */
  ghost function Footprint(ss: seq<StreamSender>): set<object> {
    set s, o | s in ss && o in s.owned :: o
  }

  /** Senders share nothing that is written, and nobody writes what another reads. */
  ghost predicate Separate(ss: seq<StreamSender>) {
    && (forall i :: 0 <= i < |ss| ==> ss[i].Valid())
    && (forall i, j :: 0 <= i < |ss| && 0 <= j < |ss| ==> ss[i].source.data !in ss[j].owned)
    && (forall i, j :: 0 <= i < j < |ss| ==> ss[i].owned !! ss[j].owned)
  }

  /** The body buffers packets refer to. */
  ghost function Bodies(ps: seq<PacketRef>): set<array<byte>> {
    set k | 0 <= k < |ps| :: ps[k].body.data
  }

  /** The body buffers the senders fill. */
  ghost function OwnBodies(ss: seq<StreamSender>): set<array<byte>> {
    set s | s in ss :: s.body.data
  }

  function Without(ss: seq<StreamSender>, s: StreamSender): seq<StreamSender> {
    if ss == [] then []
    else (if ss[0] == s then [] else [ss[0]]) + Without(ss[1..], s)
  }

  lemma {:induction false} WithoutAbsent(ss: seq<StreamSender>, s: StreamSender)
    requires s !in ss
    ensures Without(ss, s) == ss
    decreases |ss|
  {
    if ss != [] {
      WithoutAbsent(ss[1..], s);
    }
  }

  lemma {:induction false} WithoutAt(ss: seq<StreamSender>, i: nat)
    requires i < |ss| && forall j :: 0 <= j < |ss| && j != i ==> ss[j] != ss[i]
    ensures Without(ss, ss[i]) == RemoveAt(ss, i)
    decreases |ss|
  {
    if i == 0 {
      forall j | 0 <= j < |ss[1..]| ensures ss[1..][j] != ss[0] {
        assert ss[1..][j] == ss[j + 1];
      }
      WithoutAbsent(ss[1..], ss[0]);
    } else {
      assert ss[1..][i - 1] == ss[i];
      WithoutAt(ss[1..], i - 1);
    }
  }

  function Flatten(posted: seq<seq<StreamSender>>, n: nat): seq<StreamSender>
    requires n <= |posted|
  {
    if n == 0 then [] else Flatten(posted, n - 1) + posted[n - 1]
  }

  class Engine {
    var senders: seq<StreamSender>
    var queue: seq<PacketRef>
    var receivers: map<uint32, StreamReceiver>
    var delivered: seq<(uint32, bytes)>

    constructor ()
      ensures senders == [] && queue == [] && receivers == map[] && delivered == []
    {
      senders, queue, receivers, delivered := [], [], map[], [];
    }

    /** A sender without an id is refused. */
    method AddStreamSender(sender: StreamSender) returns (ok: bool)
      modifies this`senders
      ensures ok == (sender.id != 0)
      ensures senders == if ok then old(senders) + [sender] else old(senders)
    {
      ok := sender.id != 0;
      if ok {
        senders := senders + [sender];
      }
    }

    method RemoveStreamSender(sender: StreamSender)
      modifies this`senders
      ensures senders == Without(old(senders), sender)
    {
      senders := Without(senders, sender);
    }

    /** One round over a snapshot of the senders. `accept[n]` is the callback's answer to packet `n`
        and `posted[n]` the senders it posts meanwhile, which join behind the snapshot. The round
        is the modelled one, whoever the senders are; with body copying on, every packet handed to
        the callback owns its body. */
    method ProcessStreamSenders(copyBody: bool, accept: seq<bool>, posted: seq<seq<StreamSender>>)
        returns (res: nat, taken: seq<PacketRef>, ghost kept: seq<StreamSender>)
      requires |senders| <= |accept| && |senders| <= |posted| && Separate(senders)
      requires Strangers(senders, posted)
      modifies this`senders, Footprint(senders)
      ensures RoundDone(old(Values(senders)), accept, kept, taken)
      ensures |taken| <= |old(senders)| && senders == kept + Flatten(posted, |taken|)
      ensures Footprint(kept) <= Footprint(old(senders))
      ensures res == if taken != [] && !accept[|taken| - 1] then 0 else |taken|
      ensures if copyBody then fresh(Bodies(taken)) else Bodies(taken) <= OwnBodies(old(senders))
    {
      hide RoundState, TurnTaken, RoundDone, Values, Footprint, Flatten, Bodies, OwnBodies, Separate, Strangers;
      AllValid(senders);
      res, taken := 0, [];
      var snapshot := senders;
      ghost var v0 := Values(snapshot);
      RoundStarts(v0, accept, snapshot);
      NobodyJoined(snapshot, posted);
      var i := 0;
      while i < |snapshot|
        invariant |taken| <= i <= |snapshot| && senders == snapshot + Flatten(posted, |taken|)
        invariant RoundState(v0, accept, snapshot, i, taken) && (taken == [] || accept[|taken| - 1])
        invariant if copyBody then fresh(Bodies(taken)) else Bodies(taken) <= OwnBodies(snapshot)
      {
        InFootprint(this, snapshot, i);
        OneStranger(snapshot, posted, i);
        var verdict, pkt;
        verdict, pkt, kept := Turn(snapshot, i, copyBody, v0, accept, posted, taken);
        if pkt.Some? {
          OneMoreBody(taken, pkt.value);
          taken := taken + [pkt.value];
        }
        if !verdict.Go? {
          res := if verdict.Stop? then 0 else |taken|;
          return;
        }
        i := i + 1;
      }
      res, kept := |taken|, snapshot;
      RoundEnds(v0, accept, snapshot, taken);
    }

    /** One turn of the round, with what the callback posts and the departure of a sender. */
    method Turn(snapshot: seq<StreamSender>, i: nat, copyBody: bool, ghost v0: seq<Sender>, accept: seq<bool>,
                posted: seq<seq<StreamSender>>, taken: seq<PacketRef>)
        returns (verdict: Verdict, pkt: Option<PacketRef>, ghost kept: seq<StreamSender>)
      requires |taken| <= i < |snapshot| <= |posted| && |snapshot| <= |accept|
      requires RoundState(v0, accept, snapshot, i, taken)
      requires Strangers([snapshot[i]], posted)
      requires senders == snapshot + Flatten(posted, |taken|) && (taken == [] || accept[|taken| - 1])
      requires this !in snapshot[i].owned
      modifies this`senders, snapshot[i].owned
      ensures verdict.Stop? <==> pkt.Some? && !accept[|taken|]
      ensures pkt.Some? ==> if copyBody then fresh(pkt.value.body.data) else pkt.value.body == snapshot[i].body
      ensures var all := if pkt.Some? then taken + [pkt.value] else taken;
              && senders == kept + Flatten(posted, |all|) && Footprint(kept) <= Footprint(snapshot)
              && if verdict.Go? then kept == snapshot && RoundState(v0, accept, snapshot, i + 1, all)
                 else RoundDone(v0, accept, kept, all)
    {
      hide RoundState, TurnTaken, RoundDone, Values, Footprint, Flatten, Separate;
      verdict, pkt := ServeNext(snapshot, i, copyBody, v0, accept, taken);
      ghost var all := taken;
      if pkt.Some? {
        JoinBehind(snapshot, posted, |taken|);
        all := taken + [pkt.value];
        Join(posted[|taken|], verdict, v0, accept, snapshot, i, all);
      }
      if verdict.Go? {
        kept := snapshot;
        TurnGoesOn(v0, accept, snapshot, i, all);
      } else {
        FlattenAbsent(posted, |all|, snapshot[i]);
        kept := Finish(verdict, v0, accept, snapshot, i, all, Flatten(posted, |all|));
      }
    }

    /** Senders posted by the packet callback join the list; the turn is what it was. */
    method Join(more: seq<StreamSender>, ghost verdict: Verdict, ghost v0: seq<Sender>, ghost accept: seq<bool>,
                ghost snapshot: seq<StreamSender>, ghost i: nat, ghost taken: seq<PacketRef>)
      requires i < |snapshot| && TurnTaken(verdict, v0, accept, snapshot, i, taken)
      modifies this`senders
      ensures senders == old(senders) + more && TurnTaken(verdict, v0, accept, snapshot, i, taken)
    {
      hide RoundFrom;
      senders := senders + more;
    }

    /** Ends a round early: a sender that completed or failed leaves the list. */
    method Finish(verdict: Verdict, ghost v0: seq<Sender>, ghost accept: seq<bool>, snapshot: seq<StreamSender>,
                  i: nat, ghost taken: seq<PacketRef>, ghost joined: seq<StreamSender>)
        returns (ghost kept: seq<StreamSender>)
      requires i < |snapshot| && !verdict.Go? && TurnTaken(verdict, v0, accept, snapshot, i, taken)
      requires senders == snapshot + joined && (verdict.Remove? ==> snapshot[i] !in joined)
      modifies this`senders
      ensures senders == kept + joined && Footprint(kept) <= Footprint(snapshot)
      ensures RoundDone(v0, accept, kept, taken)
    {
      hide RoundFrom;
      kept := snapshot;
      if verdict.Remove? {
        kept := Drop(snapshot, i, joined);
      }
    }

    /** Removes the sender at a snapshot position from the current list. */
    method Drop(snapshot: seq<StreamSender>, i: nat, ghost joined: seq<StreamSender>)
        returns (ghost kept: seq<StreamSender>)
      requires i < |snapshot| && Separate(snapshot) && snapshot[i] !in joined
      requires senders == snapshot + joined
      modifies this`senders
      ensures kept == RemoveAt(snapshot, i) && senders == kept + joined
      ensures Separate(kept) && Footprint(kept) <= Footprint(snapshot)
      ensures Values(kept) == RemoveAt(Values(snapshot), i)
    {
      hide Values, Separate, Footprint, Without;
      kept := RemoveAt(snapshot, i);
      OthersKept(snapshot, i);
      WithoutAt(senders, i);
      RemoveStreamSender(snapshot[i]);
    }

    /** One round in which every packet is taken with a body of its own and nobody joins. */
    method TakeRound() returns (taken: seq<PacketRef>)
      requires Separate(senders)
      modifies this`senders, Footprint(senders)
      ensures RoundDone(old(Values(senders)), Yes(|old(senders)|), senders, taken)
      ensures Footprint(senders) <= Footprint(old(senders)) && fresh(Bodies(taken))
    {
      hide Separate, Values, RoundFrom, RoundDone, Footprint, Bodies;
      var posted := seq(|senders|, _ => []);
      var res;
      ghost var kept;
      res, taken, kept := ProcessStreamSenders(true, Yes(|senders|), posted);
      NobodyPosted(posted, |taken|);
      assert senders == kept;
    }

    /** The sending thread's refill: one round, every packet queued with a body of its own. What is
        queued already stays as it was although the senders reuse their one body buffer. */
    method GetElements() returns (more: bool)
      requires Separate(senders) && ValidRefs(queue) && Apart(queue, senders)
      modifies this`senders, this`queue, Footprint(senders)
      ensures Separate(senders) && ValidRefs(queue) && Apart(queue, senders)
      ensures Footprint(senders) <= Footprint(old(senders))
      ensures more == (old(senders) != [] && queue != [])
      ensures var r := SendRound(old(Values(senders)));
              Values(senders) == r.senders && PacketValues(queue) == old(PacketValues(queue)) + r.packets
    {
      assert forall o :: o in Footprint(senders) ==> allocated(o);
      hide Separate, Values, PacketValues, RoundFrom, Footprint, Apart, Bodies;
      more := false;
      AllValid(senders);
      ghost var was, v0, queued := senders, Values(senders), PacketValues(queue);
      if senders == [] {
        RoundOfNobody(senders, queued);
        return;
      }
      NotInFootprint(this, queue, senders);
      var taken := TakeRound();
      assert PacketValues(queue) == queued;
      QueueGrows(queue, taken, senders);
      queue := queue + taken;
      more := queue != [];
    }

    /** The demultiplexer. `made` is what the engine's owner answers for a packet of an unknown
        stream: nothing, or a receiver with this cipher. */
    method ProcessIncomingPacket(pkt: PacketRef, made: Option<Cipher?>) returns (ok: bool)
      requires Filed(receivers) && pkt.Valid() && pkt.bodySize < TWO_32
      requires Unshared(receivers, {pkt.body.data} + (if made.Some? then Owned(made.value) else {}))
      modifies this`receivers, this`delivered, pkt.body.data
      modifies if pkt.streamId in receivers then receivers[pkt.streamId].owned
               else if made.Some? then Owned(made.value) else {}
      ensures Filed(receivers)
      ensures ok <==> Accepts(old(Inbox(ReceiverValues(receivers), delivered)), old(pkt.Value()),
                              if made.Some? then Some(old(KeyOf(made.value))) else None)
      ensures Inbox(ReceiverValues(receivers), delivered)
              == Demux(old(Inbox(ReceiverValues(receivers), delivered)), old(pkt.Value()),
                       if made.Some? then Some(old(KeyOf(made.value))) else None)
    {
      hide Receive, NewReceiver, ReceiverValues, Filed, KeyOf, Demux, Delivered, Accepts;
      ghost var box := Inbox(ReceiverValues(receivers), delivered);
      ghost var key := if made.Some? then Some(KeyOf(made.value)) else None;
      ghost var p := pkt.Value();
      ViewOf(receivers, pkt.streamId);
      DemuxIs(box, p, key);
      var found := ReceiverFor(pkt, made);
      if !found {
        return false;
      }
      ViewOf(receivers, pkt.streamId);
      ghost var id, with := pkt.streamId, ReceiverValues(receivers);
      ghost var first := if id in box.receivers then box.receivers[id] else NewReceiver(p, key.value);
      assert with == box.receivers[id := first];
      ok := Feed(pkt);
      ghost var res := Receive(first, p);
      ViewOf(receivers, id);
      PutOver(box.receivers, id, first, res.next);
      Settle(pkt.streamId, ok);
    }

    /** A receiver that rejected its packet or is completed leaves; what it holds is handed over. */
    method Settle(id: uint32, ok: bool)
      requires Filed(receivers) && id in receivers
      modifies this`receivers, this`delivered
      ensures Filed(receivers)
      ensures var r, fed := old(receivers[id].Value()), old(ReceiverValues(receivers));
              Inbox(ReceiverValues(receivers), delivered) ==
                if !ok then Inbox(fed - {id}, old(delivered))
                else if r.status.Completed? then Inbox(fed - {id}, old(delivered) + [(id, Delivered(r))])
                else Inbox(fed, old(delivered))
    {
      hide Filed, Delivered, ReceiverValues, StreamReceiver.Value;
      ViewOf(receivers, id);
      ghost var fed := ReceiverValues(receivers);
      var receiver := receivers[id];
      StatusOf(receiver);
      if ok && receiver.status.Completed? {
        var handed := receiver.Data();
        delivered := delivered + [(receiver.id, handed)];
      }
      if !ok || receiver.status.Completed? {
        receivers := receivers - {receiver.id};
        assert ReceiverValues(receivers) == fed - {id};
      }
    }

    /** The filed receiver processes the packet; the others are as they were. */
    method Feed(pkt: PacketRef) returns (ok: bool)
      requires Filed(receivers) && pkt.streamId in receivers && pkt.Valid() && pkt.bodySize < TWO_32
      requires Unshared(receivers, {pkt.body.data})
      modifies receivers[pkt.streamId].owned, pkt.body.data
      ensures receivers == old(receivers) && delivered == old(delivered) && Filed(receivers)
      ensures var res := Receive(old(receivers[pkt.streamId].Value()), old(pkt.Value()));
              ok == res.ok && ReceiverValues(receivers) == old(ReceiverValues(receivers))[pkt.streamId := res.next]
    {
      hide Receive, ReceiverValues, Filed;
      ghost var others := receivers - {pkt.streamId};
      Split(receivers, pkt.streamId, pkt.body.data);
      ok := receivers[pkt.streamId].Process(pkt);
      Split(receivers, pkt.streamId, pkt.body.data);
    }

    /** Sees to it that there is a receiver for a packet: the running one, or a new one filed at once. */
    method ReceiverFor(pkt: PacketRef, made: Option<Cipher?>) returns (found: bool)
      requires Filed(receivers) && pkt.Valid()
      requires Unshared(receivers, {pkt.body.data} + (if made.Some? then Owned(made.value) else {}))
      modifies this`receivers
      ensures found == (pkt.streamId in old(receivers) || made.Some?)
      ensures pkt.streamId in old(receivers) || !found ==> receivers == old(receivers)
      ensures found ==> pkt.streamId in receivers && Filed(receivers) && Unshared(receivers, {pkt.body.data})
      ensures found && pkt.streamId !in old(receivers) ==>
                && ReceiverValues(receivers)
                   == old(ReceiverValues(receivers))[pkt.streamId := NewReceiver(pkt.Value(), KeyOf(made.value))]
                && fresh(receivers[pkt.streamId].owned - Owned(made.value))
    {
      hide ReceiverValues, Filed, NewReceiver;
      found := true;
      if pkt.streamId !in receivers {
        if made.None? {
          return false;
        }
        var receiver := new StreamReceiver(pkt, made.value);
        assert receiver.id == receiver.Value().id == pkt.streamId by { ReceiverId(pkt.Value(), KeyOf(made.value)); }
        OneMoreFiled(receivers, receiver);
        receivers := receivers[pkt.streamId := receiver];
        Split(receivers, pkt.streamId, pkt.body.data);
      }
    }
  }

  lemma NotInFootprint(e: Engine, ps: seq<PacketRef>, ss: seq<StreamSender>)
    requires Separate(ss) && Apart(ps, ss)
    ensures e !in Footprint(ss)
    ensures forall k :: 0 <= k < |ps| ==> ps[k].body.data !in Footprint(ss)
  {}

  lemma RoundOfNobody(ss: seq<StreamSender>, queued: seq<Packet>)
    requires ss == []
    ensures SendRound(Values(ss)) == Round(Values(ss), []) && queued + [] == queued
  {}

  lemma {:induction false} NobodyPosted(posted: seq<seq<StreamSender>>, n: nat)
    requires n <= |posted| && forall k :: 0 <= k < |posted| ==> posted[k] == []
    ensures Flatten(posted, n) == []
    decreases n
  {
    if n > 0 { NobodyPosted(posted, n - 1); }
  }

  lemma QueueGrows(queue: seq<PacketRef>, taken: seq<PacketRef>, kept: seq<StreamSender>)
    requires ValidRefs(queue) && ValidRefs(taken)
    requires forall k :: 0 <= k < |queue| ==> queue[k].body.data !in Footprint(kept)
    requires forall b :: b in Bodies(taken) ==> b !in Footprint(kept)
    ensures ValidRefs(queue + taken) && Apart(queue + taken, kept)
    ensures PacketValues(queue + taken) == PacketValues(queue) + PacketValues(taken)
  {
    forall k, j | 0 <= k < |queue + taken| && 0 <= j < |kept|
      ensures (queue + taken)[k].body.data !in kept[j].owned
    {
      if k >= |queue| {
        assert taken[k - |queue|].body.data in Bodies(taken);
      }
      assert kept[j].owned <= Footprint(kept);
    }
  }

  // ----- receivers -----

  /** Receivers share nothing that is written and are filed under their own id. */
  ghost predicate Filed(rs: map<uint32, StreamReceiver>) {
    && (forall id :: id in rs ==> rs[id].Valid() && rs[id].id == id)
    && (forall i, j :: i in rs && j in rs && i != j ==> rs[i].owned !! rs[j].owned)
  }

  ghost predicate Unshared(rs: map<uint32, StreamReceiver>, os: set<object>) {
    forall id :: id in rs ==> rs[id].owned !! os
  }

  lemma ViewOf(rs: map<uint32, StreamReceiver>, id: uint32)
    requires Filed(rs)
    ensures ReceiverValues(rs).Keys == rs.Keys
    ensures id in rs ==> ReceiverValues(rs)[id] == rs[id].Value() && rs[id].id == id && rs[id].Valid()
    ensures forall j :: j in rs ==> ReceiverValues(rs)[j].id == j
    ensures Filed(rs - {id}) && ReceiverValues(rs - {id}) == ReceiverValues(rs) - {id}
  {
    hide StreamReceiver.Value;
    forall j | j in rs ensures ReceiverValues(rs)[j].id == j {
      IdOf(rs[j]);
    }
  }

  lemma IdOf(r: StreamReceiver)
    ensures r.Value().id == r.id
  {}

  /** One receiver and the others, which it cannot touch. */
  lemma Split(rs: map<uint32, StreamReceiver>, id: uint32, body: array<byte>)
    requires Filed(rs) && id in rs && Unshared(rs, {body})
    ensures ReceiverValues(rs) == ReceiverValues(rs - {id})[id := rs[id].Value()]
    ensures rs[id].Valid() && body !in rs[id].owned
    ensures forall r: StreamReceiver :: r in (rs - {id}).Values ==>
              r != rs[id] && r.buffer.data != body && Spared(r, rs[id])
  {
    forall r: StreamReceiver | r in (rs - {id}).Values
      ensures r != rs[id] && r.buffer.data != body && Spared(r, rs[id])
    {
      var j :| j in rs && j != id && rs[j] == r;
      assert rs[j].owned !! rs[id].owned;
    }
  }

  lemma ReceiverId(p: Packet, key: Key)
    ensures NewReceiver(p, key).id == p.streamId
  {}

  lemma OneMoreFiled(rs: map<uint32, StreamReceiver>, r: StreamReceiver)
    requires Filed(rs) && r.Valid() && r.id !in rs && Unshared(rs, r.owned)
    ensures Filed(rs[r.id := r]) && rs[r.id := r] - {r.id} == rs
  {}

  /** Demultiplexing, seen from the map that already holds the packet's receiver. */
  lemma DemuxIs(box: Inbox, p: Packet, key: Option<Key>)
    requires forall id :: id in box.receivers ==> box.receivers[id].id == id
    ensures var id := p.streamId;
            if id !in box.receivers && key.None? then Demux(box, p, key) == box && !Accepts(box, p, key)
            else
              var res := Receive(if id in box.receivers then box.receivers[id] else NewReceiver(p, key.value), p);
              var fed := box.receivers[id := res.next];
              res.ok == Accepts(box, p, key) && Demux(box, p, key) ==
                if !res.ok then Inbox(fed - {id}, box.delivered)
                else if res.next.status.Completed? then
                  Inbox(fed - {id}, box.delivered + [(id, Delivered(res.next))])
                else Inbox(fed, box.delivered)
  {
    hide Receive, Delivered;
    var id := p.streamId;
    if id in box.receivers || key.Some? {
      var res := Receive(if id in box.receivers then box.receivers[id] else NewReceiver(p, key.value), p);
      assert box.receivers[id := res.next] - {id} == box.receivers - {id};
    }
  }

  lemma PutOver(m: map<uint32, Receiver>, id: uint32, a: Receiver, b: Receiver)
    ensures m[id := a][id := b] == m[id := b]
  {}

  lemma StatusOf(r: StreamReceiver)
    ensures r.Value().status == r.status
  {}

  ghost predicate Spared(r: StreamReceiver, from: StreamReceiver) {
    r !in from.owned && r.buffer.data !in from.owned && (r.cipher != null ==> r.cipher !in from.owned)
  }

  ghost function ReceiverValues(rs: map<uint32, StreamReceiver>): map<uint32, Receiver>
    reads rs.Values, set r | r in rs.Values :: r.buffer.data, set r | r in rs.Values && r.cipher != null :: r.cipher
  {
    map id | id in rs :: rs[id].Value()
  }

  /** How a round goes on after a sender was served: to the next one, not at all because the
      callback refused the packet, or not at all because the sender has to leave. */
  datatype Verdict = Go | Stop | Remove

  /** The whole round is the packets taken so far and what the senders from `i` on will do. */
  ghost predicate RoundState(
    v0: seq<Sender>, accept: seq<bool>, snapshot: seq<StreamSender>, i: nat, taken: seq<PacketRef>)
    reads snapshot, set s | s in snapshot :: s.source.data
    reads set s | s in snapshot && s.cipher != null :: s.cipher
    reads set p | p in taken :: p.body.data
  {
    && |taken| <= i <= |snapshot| == |v0| <= |accept| && Sendable(v0)
    && Separate(snapshot) && ValidRefs(taken) && Apart(taken, snapshot[i..])
    && RoundFrom(v0, 0, accept)
       == Continue(PacketValues(taken), RoundFrom(Values(snapshot), i, accept[|taken|..]))
  }

  /** The modelled round gave just these packets and left just these senders. */
  ghost predicate RoundDone(v0: seq<Sender>, accept: seq<bool>, kept: seq<StreamSender>, taken: seq<PacketRef>)
    reads kept, set s | s in kept :: s.source.data
    reads set s | s in kept && s.cipher != null :: s.cipher
    reads set p | p in taken :: p.body.data
  {
    && |v0| <= |accept| && Sendable(v0) && Separate(kept) && ValidRefs(taken)
    && RoundFrom(v0, 0, accept) == Round(Values(kept), PacketValues(taken))
  }

  lemma RoundStarts(v0: seq<Sender>, accept: seq<bool>, snapshot: seq<StreamSender>)
    requires Separate(snapshot) && v0 == Values(snapshot) && |v0| <= |accept|
    ensures RoundState(v0, accept, snapshot, 0, [])
  {
    assert accept[0..] == accept;
  }

  lemma RoundEnds(v0: seq<Sender>, accept: seq<bool>, snapshot: seq<StreamSender>, taken: seq<PacketRef>)
    requires RoundState(v0, accept, snapshot, |snapshot|, taken)
    ensures RoundDone(v0, accept, snapshot, taken)
  {
    assert PacketValues(taken) + [] == PacketValues(taken);
  }

  /** What is known after a turn: more senders to serve, or the whole round. */
  ghost predicate TurnTaken(verdict: Verdict, v0: seq<Sender>, accept: seq<bool>, snapshot: seq<StreamSender>,
                            i: nat, taken: seq<PacketRef>)
    requires i < |snapshot|
    reads snapshot, set s | s in snapshot :: s.source.data
    reads set s | s in snapshot && s.cipher != null :: s.cipher
    reads set p | p in taken :: p.body.data
  {
    if verdict.Go? then RoundState(v0, accept, snapshot, i + 1, taken)
    else
      && |taken| <= i + 1 && |snapshot| == |v0| <= |accept| && Sendable(v0)
      && Separate(snapshot) && ValidRefs(taken)
      && RoundFrom(v0, 0, accept)
         == Round(if verdict.Stop? then Values(snapshot) else RemoveAt(Values(snapshot), i), PacketValues(taken))
  }

  lemma OthersKept(ss: seq<StreamSender>, i: nat)
    requires i < |ss| && Separate(ss)
    ensures var kept := RemoveAt(ss, i);
            Separate(kept) && Footprint(kept) <= Footprint(ss) && Values(kept) == RemoveAt(Values(ss), i)
    ensures forall j :: 0 <= j < |ss| && j != i ==> ss[j] != ss[i]
  {
    var kept := RemoveAt(ss, i);
    forall j | 0 <= j < |kept| ensures kept[j] == ss[if j < i then j else j + 1] {}
    forall j | 0 <= j < |ss| && j != i ensures ss[j] != ss[i] {
      assert ss[j] in ss[j].owned;
    }
  }

  lemma AllValid(ss: seq<StreamSender>)
    requires Separate(ss)
    ensures forall s :: s in ss ==> s.Valid()
  {}

  /** Neither writes what the other reads or writes. */
  ghost predicate Independent(s: StreamSender, q: StreamSender) {
    s.owned !! q.owned && s.source.data !in q.owned && q.source.data !in s.owned
  }

  /** A sender that is independent of the others and of the queued bodies can join. */
  lemma SenderJoins(ss: seq<StreamSender>, s: StreamSender, queue: seq<PacketRef>)
    requires Separate(ss) && Apart(queue, ss) && Apart(queue, [s]) && s.Valid()
    requires forall j :: 0 <= j < |ss| ==> Independent(ss[j], s)
    ensures Separate(ss + [s]) && Apart(queue, ss + [s])
  {
    hide StreamSender.Valid;
    var all := ss + [s];
    assert s.source.data !in s.owned by { OwnSource(s); }
    forall i, j | 0 <= i < |all| && 0 <= j < |all| ensures all[i].source.data !in all[j].owned {
      if i < |ss| && j == |ss| {
        assert Independent(ss[i], s);
      } else if i == |ss| && j < |ss| {
        assert Independent(ss[j], s);
      }
    }
    forall i, j | 0 <= i < j < |all| ensures all[i].owned !! all[j].owned {
      if j == |ss| {
        assert Independent(ss[i], s);
      }
    }
    forall k, j | 0 <= k < |queue| && 0 <= j < |all| ensures queue[k].body.data !in all[j].owned {
      if j == |ss| {
        assert all[j] == [s][0];
      }
    }
  }

  lemma OwnSource(s: StreamSender)
    requires s.Valid()
    ensures s.source.data !in s.owned
  {}

  lemma NobodyJoined(ss: seq<StreamSender>, posted: seq<seq<StreamSender>>)
    ensures ss + Flatten(posted, 0) == ss && Bodies([]) == {}
  {}

  lemma JoinBehind(ss: seq<StreamSender>, posted: seq<seq<StreamSender>>, n: nat)
    requires n < |posted|
    ensures ss + Flatten(posted, n) + posted[n] == ss + Flatten(posted, n + 1)
  {}

  lemma TurnGoesOn(v0: seq<Sender>, accept: seq<bool>, snapshot: seq<StreamSender>, i: nat, taken: seq<PacketRef>)
    requires i < |snapshot| && TurnTaken(Go, v0, accept, snapshot, i, taken)
    ensures RoundState(v0, accept, snapshot, i + 1, taken)
  {}

  lemma InFootprint(e: Engine, ss: seq<StreamSender>, i: nat)
    requires i < |ss| && ss[i].Valid()
    ensures e !in ss[i].owned && ss[i].owned <= Footprint(ss) && ss[i].body.data in OwnBodies(ss)
  {}

  /** One turn of the round: the sender at `i` is served, its packet's body copied if asked for,
      and the callback's answer and the sender's status looked at. */
  method ServeNext(snapshot: seq<StreamSender>, i: nat, copyBody: bool,
                   ghost v0: seq<Sender>, accept: seq<bool>, taken: seq<PacketRef>)
      returns (verdict: Verdict, pkt: Option<PacketRef>)
    requires i < |snapshot| && RoundState(v0, accept, snapshot, i, taken)
    modifies snapshot[i].owned
    ensures Separate(snapshot)
    ensures pkt.Some? ==> if copyBody then fresh(pkt.value.body.data) else pkt.value.body == snapshot[i].body
    ensures verdict.Stop? <==> pkt.Some? && !accept[|taken|]
    ensures TurnTaken(verdict, v0, accept, snapshot, i, if pkt.Some? then taken + [pkt.value] else taken)
  {
    hide RoundFrom, Send, Footprint;
    ghost var before := Values(snapshot);
    var ok;
    ok, pkt := Serve(snapshot, i, copyBody, taken);
    verdict :=
      if !ok then Remove
      else if pkt.Some? && !accept[|taken|] then Stop
      else if snapshot[i].status.Completed? then Remove
      else Go;
    pkt := if ok then pkt else None;
    TurnIs(verdict, v0, accept, snapshot, i, taken, pkt, before, ok);
  }

  lemma TurnIs(verdict: Verdict, v0: seq<Sender>, accept: seq<bool>, snapshot: seq<StreamSender>, i: nat,
               taken: seq<PacketRef>, pkt: Option<PacketRef>, before: seq<Sender>, ok: bool)
    requires |taken| <= i < |snapshot| == |v0| == |before| && |v0| <= |accept| && Sendable(v0) && Sendable(before)
    requires Separate(snapshot) && ValidRefs(taken) && Apart(taken, snapshot[i..])
    requires RoundFrom(v0, 0, accept) == Continue(PacketValues(taken), RoundFrom(before, i, accept[|taken|..]))
    requires var sent := Send(before[i]);
             && Values(snapshot) == before[i := sent.next] && ok == sent.ok
             && (ok ==> pkt.Some? == sent.packet.Some?) && (!ok ==> pkt.None?)
             && (pkt.Some? ==> pkt.value.Valid() && pkt.value.Value() == sent.packet.value
                               && Apart([pkt.value], snapshot[i + 1..]))
    requires verdict ==
             if !ok then Remove
             else if pkt.Some? && !accept[|taken|] then Stop
             else if snapshot[i].status.Completed? then Remove
             else Go
    ensures TurnTaken(verdict, v0, accept, snapshot, i, if pkt.Some? then taken + [pkt.value] else taken)
  {
    hide RoundFrom, Send, Footprint;
    var out, rest := PacketValues(taken), accept[|taken|..];
    RoundUnfolds(before, i, rest);
    assert out + [] == out && Values(snapshot)[i] == snapshot[i].Value();
    if pkt.Some? {
      var all := taken + [pkt.value];
      assert PacketValues(all) == out + [pkt.value.Value()];
      ContinueTwice(out, [pkt.value.Value()], RoundFrom(Values(snapshot), i + 1, rest[1..]));
      assert rest[1..] == accept[|taken| + 1..];
    } else {
      ContinueTwice(out, [], RoundFrom(Values(snapshot), i + 1, rest));
      assert rest[0..] == rest;
    }
  }

  lemma ContinueTwice(a: seq<Packet>, b: seq<Packet>, r: Round)
    ensures Continue(a, Continue(b, r)) == Continue(a + b, r)
  {}

  /** None of these senders is posted by the callback. */
  ghost predicate Strangers(ss: seq<StreamSender>, posted: seq<seq<StreamSender>>) {
    forall n, i :: 0 <= n < |posted| && 0 <= i < |ss| ==> ss[i] !in posted[n]
  }

  lemma OneStranger(ss: seq<StreamSender>, posted: seq<seq<StreamSender>>, i: nat)
    requires i < |ss| && Strangers(ss, posted)
    ensures Strangers([ss[i]], posted)
  {}

  lemma {:induction false} FlattenAbsent(posted: seq<seq<StreamSender>>, n: nat, s: StreamSender)
    requires n <= |posted| && Strangers([s], posted)
    ensures s !in Flatten(posted, n)
    decreases n
  {
    if n > 0 {
      assert [s][0] !in posted[n - 1];
      FlattenAbsent(posted, n - 1, s);
    }
  }

  /** Serves one sender of a list; the others, and packets taken earlier, are untouched. */
  method Serve(ss: seq<StreamSender>, i: nat, copyBody: bool, ghost taken: seq<PacketRef>)
      returns (ok: bool, pkt: Option<PacketRef>)
    requires i < |ss| && Separate(ss) && ValidRefs(taken) && Apart(taken, ss[i..])
    modifies ss[i].owned
    ensures var sent := Send(old(Values(ss)[i]));
            && Values(ss) == old(Values(ss))[i := sent.next]
            && ok == sent.ok && (ok ==> pkt.Some? == sent.packet.Some?)
            && (ok && pkt.Some? ==> pkt.value.Valid() && pkt.value.Value() == sent.packet.value
                                    && (if copyBody then fresh(pkt.value.body.data) else pkt.value.body == ss[i].body))
    ensures PacketValues(taken) == old(PacketValues(taken))
  {
    hide Send;
    ok, pkt := ss[i].Process();
    forall j | 0 <= j < |ss| && j != i ensures ss[j].Value() == old(ss[j].Value()) {
      assert ss[i].owned !! ss[j].owned;
    }
    if ok && pkt.Some? && copyBody {
      ghost var v := pkt.value.Value();
      var copied := pkt.value.body.Copy();
      pkt := Some(pkt.value.(body := copied));
      assert pkt.value.Value() == v;
    }
  }

  /** No packet body is written by any of the senders. */
  ghost predicate Apart(taken: seq<PacketRef>, ss: seq<StreamSender>) {
    forall k, j :: 0 <= k < |taken| && 0 <= j < |ss| ==> taken[k].body.data !in ss[j].owned
  }

  lemma OneMoreBody(taken: seq<PacketRef>, p: PacketRef)
    ensures Bodies(taken + [p]) == Bodies(taken) + {p.body.data}
  {
    assert (taken + [p])[|taken|] == p;
    assert forall k :: 0 <= k < |taken| ==> (taken + [p])[k] == taken[k];
  }

  lemma RoundUnfolds(ss: seq<Sender>, i: nat, accept: seq<bool>)
    requires i < |ss| && |ss| - i <= |accept| && Sendable(ss)
    ensures var sent := Send(ss[i]);
            var served := ss[i := sent.next];
            var out := if sent.packet.Some? then [sent.packet.value] else [];
            Sendable(served) &&
            RoundFrom(ss, i, accept) ==
              if !sent.ok then Round(RemoveAt(served, i), [])
              else if sent.packet.Some? && !accept[0] then Round(served, out)
              else if sent.next.status.Completed? then Round(RemoveAt(served, i), out)
              else Continue(out, RoundFrom(served, i + 1, accept[|out|..]))
  {
    var sent := Send(ss[i]);
    assert RemoveAt(ss[i := sent.next], i) == RemoveAt(ss, i);
    assert accept[0..] == accept;
  }

  /** A round whose first packets are already out. */
  ghost function Continue(out: seq<Packet>, r: Round): Round {
    Round(r.senders, out + r.packets)
  }
}
