/** Incoming messages with resources: pushes and their redeliveries, resource streams that start, end
    or break off, and the statuses the handlers keep in the store. */
module Inbox {

  datatype ResourceStatus = Unknown | Incoming | Received

  datatype Resource = Resource(request: nat, status: ResourceStatus, data: nat)

  /** The incoming statuses of a message. */
  datatype MessageStatus = Pending | Complete

  /** What a push carries: its id, whether there is text, and the ids of its resources. */
  datatype Push = Push(id: nat, text: bool, resources: seq<nat>)

  /** The tables the handlers work on, and the running receivers with the request each was made for. */
  datatype State = State(
    requests: set<nat>, resources: map<nat, Resource>, messages: map<nat, MessageStatus>,
    blobs: set<nat>, running: map<nat, nat>)

  // ----- the handlers on values -----

  /** Resources that are not there yet are stored as unknown. */
  function StoreResources(rs: map<nat, Resource>, ids: seq<nat>, request: nat): (r: map<nat, Resource>)
    ensures r.Keys == rs.Keys + set id | id in ids
    ensures forall id :: id in r ==> r[id] == if id in rs then rs[id] else Resource(request, Unknown, 0)
    decreases |ids|
  {
    if ids == [] then rs
    else
      var last := |ids| - 1;
      var r := StoreResources(rs, ids[..last], request);
      assert forall id :: id in ids <==> id in ids[..last] || id == ids[last];
      if ids[last] in r then r else r[ids[last] := Resource(request, Unknown, 0)]
  }

  function Pushed(s: State, p: Push): State {
    s.(requests := if p.resources == [] then s.requests else s.requests + {p.id},
       resources := StoreResources(s.resources, p.resources, p.id),
       messages := if p.text && p.id !in s.messages
                   then s.messages[p.id := if p.resources == [] then Complete else Pending]
                   else s.messages)
  }

  /** A stream starts only for a resource nothing has arrived of, with its request on record. */
  predicate Startable(s: State, id: nat) {
    id in s.resources && s.resources[id].status == Unknown && s.resources[id].request in s.requests
  }

  function Started(s: State, id: nat): State
    requires Startable(s, id)
  {
    s.(resources := s.resources[id := s.resources[id].(status := Incoming)],
       running := s.running[id := s.resources[id].request])
  }

  function Of(rs: map<nat, Resource>, request: nat): set<nat> {
    set id | id in rs && rs[id].request == request
  }

  function DoneOf(rs: map<nat, Resource>, request: nat): set<nat> {
    set id | id in rs && rs[id].request == request && rs[id].status == Received
  }

  /** A finished stream: the data goes to a new blob; with the last resource the request record goes
      and the message is received. */
  function Completed(s: State, id: nat, blob: nat): State
    requires id in s.running
  {
    var request := s.running[id];
    var stale := if id in s.resources && s.resources[id].data != 0 then {s.resources[id].data} else {};
    var rs := if id in s.resources then s.resources[id := s.resources[id].(status := Received, data := blob)]
              else s.resources;
    var all := Of(rs, request) == DoneOf(rs, request);
    State(if all then s.requests - {request} else s.requests, rs,
          if all && request in s.messages then s.messages[request := Complete] else s.messages,
          s.blobs - stale + {blob}, s.running - {id})
  }

  /** A receiver is dropped, because a packet did not fit or the engine was reset. */
  function Dropped(s: State, id: nat): State {
    s.(running := s.running - {id})
  }

  /** The user deletes a message with its resources and their blobs; blobs that the file system uses stay. */
  ghost function Deleted(s: State, message: nat, files: set<nat>): State {
    if message !in s.messages then s
    else
      s.(messages := s.messages - {message},
         resources := s.resources - Of(s.resources, message), blobs := s.blobs - DataOf(s.resources, message, files))
  }

  ghost function DataOf(rs: map<nat, Resource>, request: nat, files: set<nat>): set<nat> {
    set id | id in rs && rs[id].request == request && rs[id].data != 0 && rs[id].data !in files :: rs[id].data
  }

  // ----- runs -----

  datatype Step =
    | Deliver(p: Push)
    | Start(id: nat)
    | Finish(id: nat, blob: nat)
    | Drop(id: nat)
    | Delete(message: nat, files: set<nat>)

  ghost predicate Enabled(s: State, step: Step) {
    match step
    case Deliver(_) => true
    case Start(id) => Startable(s, id)
    case Finish(id, blob) => id in s.running && blob != 0 && blob !in s.blobs
    case Drop(_) => true
    case Delete(_, _) => true
  }

  ghost function Next(s: State, step: Step): State
    requires Enabled(s, step)
  {
    match step
    case Deliver(p) => Pushed(s, p)
    case Start(id) => Started(s, id)
    case Finish(id, blob) => Completed(s, id, blob)
    case Drop(id) => Dropped(s, id)
    case Delete(message, files) => Deleted(s, message, files)
  }

  ghost predicate Runnable(s: State, steps: seq<Step>)
    decreases |steps|
  {
    steps == [] || (Enabled(s, steps[0]) && Runnable(Next(s, steps[0]), steps[1..]))
  }

  ghost function Run(s: State, steps: seq<Step>): State
    requires Runnable(s, steps)
    decreases |steps|
  {
    if steps == [] then s else Run(Next(s, steps[0]), steps[1..])
  }

  /** All pushes ever sent, by id: a redelivery is the same push. */
  ghost predicate Filed(sent: map<nat, Push>) {
    forall id :: id in sent ==> sent[id].id == id
  }

  /** No other push carries a resource of a push with text. */
  ghost predicate TextsOwn(sent: map<nat, Push>) {
    forall a, b, r :: a in sent && b in sent && a != b && sent[b].text && r in sent[a].resources ==>
      r !in sent[b].resources
  }

  ghost predicate Own(sent: map<nat, Push>) {
    Filed(sent) && TextsOwn(sent)
  }

  ghost predicate FromSent(sent: map<nat, Push>, steps: seq<Step>) {
    forall k :: 0 <= k < |steps| && steps[k].Deliver? ==> steps[k].p.id in sent && sent[steps[k].p.id] == steps[k].p
  }

  // ----- the invariant -----

  ghost predicate AllStored(s: State, p: Push) {
    forall r :: r in p.resources ==> r in s.resources
  }

  ghost predicate AllReceived(s: State, p: Push) {
    forall r :: r in p.resources ==> r in s.resources && s.resources[r].status == Received
  }

  ghost predicate ResourceInv(s: State, sent: map<nat, Push>, id: nat)
    requires id in s.resources
  {
    var r := s.resources[id];
    && r.request in sent && id in sent[r.request].resources && AllStored(s, sent[r.request])
    && (sent[r.request].text ==> r.request in s.messages)
  }

  ghost predicate MessageInv(s: State, sent: map<nat, Push>, m: nat)
    requires m in s.messages
  {
    && m in sent && sent[m].text && AllStored(s, sent[m])
    && (s.messages[m] == Complete <==> AllReceived(s, sent[m]))
  }

  ghost predicate Inv(s: State, sent: map<nat, Push>) {
    && (forall id :: id in s.resources ==> ResourceInv(s, sent, id))
    && (forall m :: m in s.messages ==> MessageInv(s, sent, m))
    && (forall id :: id in s.running ==> s.running[id] in sent && id in sent[s.running[id]].resources)
  }

  const EMPTY := State({}, map[], map[], {}, map[])

  lemma PushKeeps(s: State, sent: map<nat, Push>, p: Push)
    requires Own(sent) && Inv(s, sent) && p.id in sent && sent[p.id] == p
    ensures Inv(Pushed(s, p), sent)
  {
    hide Of, StoreResources, ResourceInv, MessageInv;
    var t := Pushed(s, p);
    forall id | id in t.resources ensures ResourceInv(t, sent, id) {
      PushKeepsResource(s, sent, p, id);
    }
    forall m | m in t.messages ensures MessageInv(t, sent, m) {
      PushSpares(s, sent, p, m);
    }
  }

  lemma PushKeepsResource(s: State, sent: map<nat, Push>, p: Push, id: nat)
    requires Own(sent) && Inv(s, sent) && p.id in sent && sent[p.id] == p && id in Pushed(s, p).resources
    ensures ResourceInv(Pushed(s, p), sent, id)
  {
    hide StoreResources, Of;
    if id in s.resources {
      assert ResourceInv(s, sent, id);
    }
  }

  lemma PushSpares(s: State, sent: map<nat, Push>, p: Push, m: nat)
    requires Own(sent) && Inv(s, sent) && p.id in sent && sent[p.id] == p && m in Pushed(s, p).messages
    ensures MessageInv(Pushed(s, p), sent, m)
  {
    hide StoreResources, Of;
    if m in s.messages {
      assert MessageInv(s, sent, m);
    } else {
      NothingStored(s, sent, p);
      assert p.resources != [] ==> p.resources[0] !in s.resources;
    }
  }

  /** A push whose message is not there has no resource there. */
  lemma NothingStored(s: State, sent: map<nat, Push>, p: Push)
    requires Own(sent) && Inv(s, sent) && p.id in sent && sent[p.id] == p && p.text && p.id !in s.messages
    ensures forall r :: r in s.resources ==> r !in p.resources
  {
    forall r | r in s.resources ensures r !in p.resources {
      assert ResourceInv(s, sent, r);
    }
  }

  lemma StartKeeps(s: State, sent: map<nat, Push>, id: nat)
    requires Own(sent) && Inv(s, sent) && Startable(s, id)
    ensures Inv(Started(s, id), sent)
  {
    var t := Started(s, id);
    assert ResourceInv(s, sent, id);
    forall r | r in t.resources ensures ResourceInv(t, sent, r) {
      assert ResourceInv(s, sent, r);
    }
    forall m | m in t.messages ensures MessageInv(t, sent, m) {
      assert MessageInv(s, sent, m);
    }
  }

  /** The two counts agree exactly if every resource of the push is received. */
  lemma CountsAgree(s: State, sent: map<nat, Push>, request: nat)
    requires Own(sent) && request in sent && sent[request].text
    requires forall id :: id in s.resources ==>
               s.resources[id].request in sent && id in sent[s.resources[id].request].resources
    requires Of(s.resources, request) != {} ==> AllStored(s, sent[request])
    ensures Of(s.resources, request) == DoneOf(s.resources, request)
            <==> Of(s.resources, request) == {} || AllReceived(s, sent[request])
  {
    if Of(s.resources, request) == DoneOf(s.resources, request) && Of(s.resources, request) != {} {
      forall r | r in sent[request].resources ensures s.resources[r].status == Received {
        assert r in Of(s.resources, request);
      }
    }
  }

  lemma FinishKeeps(s: State, sent: map<nat, Push>, id: nat, blob: nat)
    requires Own(sent) && Inv(s, sent) && id in s.running && blob != 0 && blob !in s.blobs
    ensures Inv(Completed(s, id, blob), sent)
  {
    hide ResourceInv, MessageInv, Of, DoneOf;
    var t := Completed(s, id, blob);
    forall r | r in t.resources ensures ResourceInv(t, sent, r) {
      FinishKeepsResource(s, sent, id, blob, r);
    }
    forall m | m in t.messages ensures MessageInv(t, sent, m) {
      FinishSpares(s, sent, id, blob, m);
    }
  }

  lemma FinishKeepsResource(s: State, sent: map<nat, Push>, id: nat, blob: nat, r: nat)
    requires Own(sent) && Inv(s, sent) && id in s.running && blob != 0 && blob !in s.blobs && r in s.resources
    ensures ResourceInv(Completed(s, id, blob), sent, r)
  {
    hide AllReceived, AllStored;
    var t, request := Completed(s, id, blob), s.running[id];
    assert ResourceInv(s, sent, r);
    StillStored(s, sent[s.resources[r].request], id, blob);
    assert s.resources[r].request == request ==> r in Of(t.resources, request);
  }

  lemma FinishSpares(s: State, sent: map<nat, Push>, id: nat, blob: nat, m: nat)
    requires Own(sent) && Inv(s, sent) && id in s.running && blob != 0 && blob !in s.blobs && m in s.messages
    ensures MessageInv(Completed(s, id, blob), sent, m)
  {
    hide Of, DoneOf, AllReceived, AllStored;
    assert MessageInv(s, sent, m);
    if m == s.running[id] {
      FinishFacts(s, sent, id, blob);
    }
    StillStored(s, sent[m], id, blob);
    OthersReceived(s, sent, m, id, blob);
  }

  lemma StillStored(s: State, p: Push, id: nat, blob: nat)
    requires id in s.running
    ensures AllStored(s, p) ==> AllStored(Completed(s, id, blob), p)
  {}

  lemma OthersReceived(s: State, sent: map<nat, Push>, m: nat, id: nat, blob: nat)
    requires Own(sent) && id in s.running && s.running[id] in sent && id in sent[s.running[id]].resources
    requires m in sent && sent[m].text
    ensures AllReceived(s, sent[m]) ==> AllReceived(Completed(s, id, blob), sent[m])
    ensures m != s.running[id] && AllReceived(Completed(s, id, blob), sent[m]) ==> AllReceived(s, sent[m])
  {}

  /** The request of a stored message is closed exactly when its last resource has come. */
  lemma FinishFacts(s: State, sent: map<nat, Push>, id: nat, blob: nat)
    requires Own(sent) && Inv(s, sent) && id in s.running && s.running[id] in s.messages
    ensures var t, request := Completed(s, id, blob), s.running[id];
            Of(t.resources, request) == DoneOf(t.resources, request) <==> AllReceived(t, sent[request])
  {
    var t, request := Completed(s, id, blob), s.running[id];
    assert MessageInv(s, sent, request);
    forall r | r in s.resources
      ensures s.resources[r].request in sent && r in sent[s.resources[r].request].resources
    {
      assert ResourceInv(s, sent, r);
    }
    assert AllStored(t, sent[request]);
    assert id in Of(t.resources, request);
    CountsAgree(t, sent, request);
  }

  lemma DeleteKeeps(s: State, sent: map<nat, Push>, message: nat, files: set<nat>)
    requires Own(sent) && Inv(s, sent)
    ensures Inv(Deleted(s, message, files), sent)
  {
    var t := Deleted(s, message, files);
    assert message in s.messages ==> MessageInv(s, sent, message);
    forall r | r in t.resources ensures ResourceInv(t, sent, r) {
      assert ResourceInv(s, sent, r);
    }
    forall m | m in t.messages ensures MessageInv(t, sent, m) {
      assert MessageInv(s, sent, m);
    }
  }

  lemma StepKeeps(s: State, sent: map<nat, Push>, step: Step)
    requires Own(sent) && Inv(s, sent) && Enabled(s, step) && FromSent(sent, [step])
    ensures Inv(Next(s, step), sent)
  {
    match step
    case Deliver(p) =>
      assert [step][0] == step;
      PushKeeps(s, sent, p);
    case Start(id) => StartKeeps(s, sent, id);
    case Finish(id, blob) => FinishKeeps(s, sent, id, blob);
    case Drop(id) => DropKeeps(s, sent, id);
    case Delete(message, files) => DeleteKeeps(s, sent, message, files);
  }

  lemma DropKeeps(s: State, sent: map<nat, Push>, id: nat)
    requires Inv(s, sent)
    ensures Inv(Dropped(s, id), sent)
  {
    var t := Dropped(s, id);
    forall r | r in t.resources ensures ResourceInv(t, sent, r) {
      assert ResourceInv(s, sent, r);
    }
    forall m | m in t.messages ensures MessageInv(t, sent, m) {
      assert MessageInv(s, sent, m);
    }
  }

  lemma {:induction false} RunKeeps(s: State, sent: map<nat, Push>, steps: seq<Step>)
    requires Own(sent) && Inv(s, sent) && Runnable(s, steps) && FromSent(sent, steps)
    ensures Inv(Run(s, steps), sent)
    decreases |steps|
  {
    hide Inv, Next, Enabled;
    if steps != [] {
      StepKeeps(s, sent, steps[0]);
      RunKeeps(Next(s, steps[0]), sent, steps[1..]);
    }
  }

  // ----- blobs and request records, whatever is pushed -----

  /** Every data reference has its blob, and no two resources hold one. */
  ghost predicate BlobsOwn(s: State) {
    && (forall id :: id in s.resources && s.resources[id].data != 0 ==> s.resources[id].data in s.blobs)
    && (forall a, b :: a in s.resources && b in s.resources ==>
          s.resources[a].data == s.resources[b].data != 0 ==> a == b)
  }

  /** Every unfinished resource has its request record. */
  ghost predicate OnRecord(s: State) {
    forall id :: id in s.resources && s.resources[id].status != Received ==> s.resources[id].request in s.requests
  }

  lemma StepKeepsBlobs(s: State, step: Step)
    requires BlobsOwn(s) && Enabled(s, step)
    ensures BlobsOwn(Next(s, step))
  {
    hide DoneOf;
  }

  lemma StepKeepsRecords(s: State, step: Step)
    requires OnRecord(s) && Enabled(s, step)
    ensures OnRecord(Next(s, step))
  {
    if step.Finish? {
      var t, request := Next(s, step), s.running[step.id];
      forall id | id in t.resources && t.resources[id].status != Received
        ensures t.resources[id].request in t.requests
      {
        assert t.resources[id].request == request ==> id in Of(t.resources, request);
      }
    }
  }

  lemma {:induction false} RunKeepsBlobs(s: State, steps: seq<Step>)
    requires BlobsOwn(s) && OnRecord(s) && Runnable(s, steps)
    ensures BlobsOwn(Run(s, steps)) && OnRecord(Run(s, steps))
    decreases |steps|
  {
    hide BlobsOwn, OnRecord, Next, Enabled;
    if steps != [] {
      StepKeepsBlobs(s, steps[0]);
      StepKeepsRecords(s, steps[0]);
      RunKeepsBlobs(Next(s, steps[0]), steps[1..]);
    }
  }

  /** In every run, also when pushes carry the same resources, each resource has a blob of its own. */
  lemma BlobsAreOwn(steps: seq<Step>)
    requires Runnable(EMPTY, steps)
    ensures BlobsOwn(Run(EMPTY, steps))
  {
    RunKeepsBlobs(EMPTY, steps);
  }

  /** In every run, also when pushes carry the same resources, what is unfinished stays on record. */
  lemma RecordsStay(steps: seq<Step>)
    requires Runnable(EMPTY, steps)
    ensures OnRecord(Run(EMPTY, steps))
  {
    RunKeepsBlobs(EMPTY, steps);
  }

  // ----- messages stay -----

  predicate Spares(steps: seq<Step>, message: nat) {
    forall k :: 0 <= k < |steps| && steps[k].Delete? ==> steps[k].message != message
  }

  lemma StepKeepsStored(s: State, step: Step, m: nat)
    requires Enabled(s, step) && (m in s.messages || (step.Deliver? && step.p.text && step.p.id == m))
    requires step.Delete? ==> step.message != m
    ensures m in Next(s, step).messages
    ensures m !in s.messages ==>
              Next(s, step).messages[m] == if step.p.resources == [] then Complete else Pending
    ensures m in s.messages && s.messages[m] == Complete ==> Next(s, step).messages[m] == Complete
  {
    hide Of, DoneOf;
  }

  lemma {:induction false} StoredStays(s: State, steps: seq<Step>, m: nat)
    requires Runnable(s, steps) && m in s.messages && Spares(steps, m)
    ensures m in Run(s, steps).messages
    ensures s.messages[m] == Complete ==> Run(s, steps).messages[m] == Complete
    decreases |steps|
  {
    hide Next, Enabled;
    if steps != [] {
      StepKeepsStored(s, steps[0], m);
      StoredStays(Next(s, steps[0]), steps[1..], m);
    }
  }

  /** In every run the message of a delivered push with text is there at the end unless it was deleted
      afterwards, and it is received if the first delivery brought no resources. */
  lemma {:induction false} TextsAreStored(s: State, steps: seq<Step>, k: nat)
    requires Runnable(s, steps) && k < |steps| && steps[k].Deliver? && steps[k].p.text
    requires Spares(steps[k + 1..], steps[k].p.id)
    ensures var p, t := steps[k].p, Run(s, steps);
            && p.id in t.messages
            && (k == 0 && p.id !in s.messages && p.resources == [] ==> t.messages[p.id] == Complete)
    decreases |steps|
  {
    hide Next, Enabled;
    if k == 0 {
      StepKeepsStored(s, steps[0], steps[0].p.id);
      StoredStays(Next(s, steps[0]), steps[1..], steps[0].p.id);
    } else {
      assert steps[1..][k - 1] == steps[k] && steps[1..][k..] == steps[k + 1..];
      TextsAreStored(Next(s, steps[0]), steps[1..], k - 1);
    }
  }

  // ----- statuses and request records -----

  /** A stored message is received exactly if all its resources are, and an unfinished resource still
      has its request record. */
  ghost predicate Agree(s: State, sent: map<nat, Push>) {
    && (forall m :: m in s.messages ==> m in sent && (s.messages[m] == Complete <==> AllReceived(s, sent[m])))
    && OnRecord(s)
  }

  /** In every run of pushes, redeliveries, streams and deletions. */
  lemma StatusesAgree(sent: map<nat, Push>, steps: seq<Step>)
    requires Own(sent) && Runnable(EMPTY, steps) && FromSent(sent, steps)
    ensures Agree(Run(EMPTY, steps), sent)
  {
    RunKeeps(EMPTY, sent, steps);
    RecordsStay(steps);
    InvAgrees(Run(EMPTY, steps), sent);
  }

  lemma InvAgrees(s: State, sent: map<nat, Push>)
    requires Inv(s, sent) && OnRecord(s)
    ensures Agree(s, sent)
  {
    forall m | m in s.messages ensures m in sent && (s.messages[m] == Complete <==> AllReceived(s, sent[m])) {
      assert MessageInv(s, sent, m);
    }
  }

  ghost predicate AgreesAfter(sent: map<nat, Push>, steps: seq<Step>) {
    Runnable(EMPTY, steps) && FromSent(sent, steps) ==> Agree(Run(EMPTY, steps), sent)
  }

  /** Statuses agree after every run exactly if no resource of a push with text is carried by another
      push: then the message is received too early or never. */
  lemma StatusesAgreeIff(sent: map<nat, Push>)
    requires Filed(sent)
    ensures (forall steps :: AgreesAfter(sent, steps)) <==> TextsOwn(sent)
  {
    hide AgreesAfter;
    if TextsOwn(sent) {
      forall steps ensures AgreesAfter(sent, steps) {
        AlwaysAgrees(sent, steps);
      }
    } else {
      var a, b, r :| a in sent && b in sent && a != b && sent[b].text
        && r in sent[a].resources && r in sent[b].resources;
      var steps;
      if x :| x in sent[b].resources && x !in sent[a].resources {
        steps := ReceivedTooEarly(sent, a, b, r, x);
      } else {
        steps := NeverReceived(sent, a, b, r);
      }
      Disagrees(sent, steps, b);
    }
  }

  lemma AlwaysAgrees(sent: map<nat, Push>, steps: seq<Step>)
    requires Own(sent)
    ensures AgreesAfter(sent, steps)
  {
    if Runnable(EMPTY, steps) && FromSent(sent, steps) {
      StatusesAgree(sent, steps);
    }
  }

  lemma Disagrees(sent: map<nat, Push>, steps: seq<Step>, m: nat)
    requires Runnable(EMPTY, steps) && FromSent(sent, steps) && m in sent
    requires var t := Run(EMPTY, steps); m in t.messages && !(t.messages[m] == Complete <==> AllReceived(t, sent[m]))
    ensures !AgreesAfter(sent, steps)
  {}

  // ----- runs that finish streams -----

  lemma {:induction false} Above(bs: set<nat>) returns (n: nat)
    ensures n > 0 && forall b :: b in bs ==> b < n
    decreases |bs|
  {
    if bs == {} {
      n := 1;
    } else {
      var b :| b in bs;
      var m := Above(bs - {b});
      n := if m > b then m else b + 1;
      assert forall x :: x in bs ==> x == b || x in bs - {b};
    }
  }

  lemma RunStep(s: State, step: Step, rest: seq<Step>)
    requires Enabled(s, step) && Runnable(Next(s, step), rest)
    ensures Runnable(s, [step] + rest) && Run(s, [step] + rest) == Run(Next(s, step), rest)
  {
    hide Next, Enabled;
    assert ([step] + rest)[1..] == rest;
  }

  lemma RunOne(s: State, step: Step)
    requires Enabled(s, step)
    ensures Runnable(s, [step]) && Run(s, [step]) == Next(s, step)
  {
    assert [step][1..] == [];
  }

  predicate OnlyStreams(steps: seq<Step>) {
    forall k :: 0 <= k < |steps| ==> steps[k].Start? || steps[k].Finish?
  }

  /** What is left after a stream that was started from state `s` has finished. */
  lemma OneStream(s: State, id: nat, blob: nat)
    requires Startable(s, id) && id !in s.running && blob != 0 && blob !in s.blobs
    ensures var q, t := s.resources[id].request, Completed(Started(s, id), id, blob);
            && t.resources.Keys == s.resources.Keys && t.running == s.running
            && t.resources[id].status == Received && t.resources[id].request == q
            && (forall r :: r in s.resources && r != id ==> t.resources[r] == s.resources[r])
            && (Of(t.resources, q) != DoneOf(t.resources, q) ==> t.requests == s.requests)
            && t.messages == if Of(t.resources, q) == DoneOf(t.resources, q) && q in s.messages
                             then s.messages[q := Complete] else s.messages
  {}

  /** Some resources of a request can all be received, one stream after the other; its message is
      received with the last one if no resource of the request is left. */
  lemma {:induction false} FinishAll(s: State, ids: set<nat>, q: nat) returns (steps: seq<Step>)
    requires q in s.requests && s.running == map[]
    requires forall id :: id in ids ==>
               id in s.resources && s.resources[id].request == q && s.resources[id].status == Unknown
    ensures Runnable(s, steps) && OnlyStreams(steps)
    ensures var t := Run(s, steps);
            && t.resources.Keys == s.resources.Keys && t.running == map[]
            && (forall id :: id in ids ==> t.resources[id].status == Received && t.resources[id].request == q)
            && (forall id :: id in s.resources && id !in ids ==> t.resources[id] == s.resources[id])
            && t.messages == if ids != {} && Of(t.resources, q) == DoneOf(t.resources, q) && q in s.messages
                             then s.messages[q := Complete] else s.messages
    decreases |ids|
  {
    if ids == {} {
      steps := [];
    } else {
      var id :| id in ids;
      var blob := Above(s.blobs);
      var s1, s2 := Started(s, id), Completed(Started(s, id), id, blob);
      OneStream(s, id, blob);
      var more := [];
      if ids == {id} {
        assert Runnable(s2, more) && Run(s2, more) == s2;
      } else {
        var next :| next in ids && next != id;
        assert next in Of(s2.resources, q) && next !in DoneOf(s2.resources, q);
        hide Of, DoneOf, Completed, Started;
        more := FinishAll(s2, ids - {id}, q);
      }
      RunStep(s1, Finish(id, blob), more);
      RunStep(s, Start(id), [Finish(id, blob)] + more);
      steps := [Start(id)] + ([Finish(id, blob)] + more);
    }
  }

  // ----- shared resources -----

  /** The state after two pushes, of which the second shares a resource with the first. */
  lemma TwoPushes(sent: map<nat, Push>, a: nat, b: nat, r: nat, more: seq<Step>) returns (s: State)
    requires Filed(sent) && a in sent && b in sent && a != b && sent[b].text
    requires r in sent[a].resources && r in sent[b].resources
    ensures s == Pushed(Pushed(EMPTY, sent[a]), sent[b])
    ensures s.requests == {a, b} && s.running == map[] && s.blobs == {}
    ensures s.messages == (if sent[a].text then map[a := Pending] else map[])[b := Pending]
    ensures forall id :: id in s.resources <==> id in sent[a].resources || id in sent[b].resources
    ensures forall id :: id in s.resources ==>
              s.resources[id] == Resource(if id in sent[a].resources then a else b, Unknown, 0)
    ensures Runnable(s, more) && OnlyStreams(more) ==>
              var steps := [Deliver(sent[a]), Deliver(sent[b])] + more;
              Runnable(EMPTY, steps) && FromSent(sent, steps) && Run(EMPTY, steps) == Run(s, more)
  {
    s := Pushed(Pushed(EMPTY, sent[a]), sent[b]);
    if Runnable(s, more) && OnlyStreams(more) {
      hide StoreResources;
      RunStep(Pushed(EMPTY, sent[a]), Deliver(sent[b]), more);
      RunStep(EMPTY, Deliver(sent[a]), [Deliver(sent[b])] + more);
      assert [Deliver(sent[a]), Deliver(sent[b])] + more == [Deliver(sent[a])] + ([Deliver(sent[b])] + more);
    }
  }

  /** If the second push has a resource of its own, its message is received with that one, although
      the shared resource is not. */
  lemma ReceivedTooEarly(sent: map<nat, Push>, a: nat, b: nat, r: nat, own: nat) returns (steps: seq<Step>)
    requires Filed(sent) && a in sent && b in sent && a != b && sent[b].text
    requires r in sent[a].resources && r in sent[b].resources
    requires own in sent[b].resources && own !in sent[a].resources
    ensures Runnable(EMPTY, steps) && FromSent(sent, steps)
    ensures var t := Run(EMPTY, steps);
            && b in t.messages && t.messages[b] == Complete && !AllReceived(t, sent[b])
            && r in t.resources && t.resources[r].status == Unknown
  {
    hide StoreResources, Pushed, Run, Runnable;
    var s := TwoPushes(sent, a, b, r, []);
    var ids := set id | id in sent[b].resources && id !in sent[a].resources;
    var more := FinishAll(s, ids, b);
    var _ := TwoPushes(sent, a, b, r, more);
    steps := [Deliver(sent[a]), Deliver(sent[b])] + more;
    var t := Run(s, more);
    assert own in ids;
    assert Of(t.resources, b) == ids == DoneOf(t.resources, b);
  }

  /** No resource of a pending message is filed under its push, so no stream can close it. */
  ghost predicate Orphaned(s: State, sent: map<nat, Push>, m: nat) {
    && m in sent && m in s.messages && s.messages[m] == Pending && AllStored(s, sent[m])
    && (forall id :: id in s.resources ==> s.resources[id].request != m)
    && (forall id :: id in s.running ==> s.running[id] != m)
  }

  /** If the first push carries all resources of the second, they are all received and the second
      message is not. */
  lemma NeverReceived(sent: map<nat, Push>, a: nat, b: nat, r: nat) returns (steps: seq<Step>)
    requires Filed(sent) && a in sent && b in sent && a != b && sent[b].text
    requires r in sent[a].resources && r in sent[b].resources
    requires forall id :: id in sent[b].resources ==> id in sent[a].resources
    ensures Runnable(EMPTY, steps) && FromSent(sent, steps)
    ensures var t := Run(EMPTY, steps); AllReceived(t, sent[b]) && Orphaned(t, sent, b)
  {
    hide StoreResources, Pushed, Run, Runnable;
    var s := TwoPushes(sent, a, b, r, []);
    var ids := set id | id in sent[a].resources;
    var more := FinishAll(s, ids, a);
    var _ := TwoPushes(sent, a, b, r, more);
    steps := [Deliver(sent[a]), Deliver(sent[b])] + more;
  }

  predicate NothingDeleted(steps: seq<Step>) {
    forall k :: 0 <= k < |steps| ==> !steps[k].Delete?
  }

  /** And it never will be, whatever comes, unless something is deleted. */
  lemma {:induction false} OrphanStays(s: State, sent: map<nat, Push>, m: nat, steps: seq<Step>)
    requires Filed(sent) && Orphaned(s, sent, m) && Runnable(s, steps) && FromSent(sent, steps) && NothingDeleted(steps)
    ensures Orphaned(Run(s, steps), sent, m)
    decreases |steps|
  {
    if steps != [] {
      hide Orphaned, Next, Enabled;
      OrphanStep(s, sent, m, steps[0]);
      OrphanStays(Next(s, steps[0]), sent, m, steps[1..]);
    }
  }

  lemma OrphanStep(s: State, sent: map<nat, Push>, m: nat, step: Step)
    requires Filed(sent) && Orphaned(s, sent, m) && Enabled(s, step) && !step.Delete?
    requires step.Deliver? ==> step.p.id in sent && sent[step.p.id] == step.p
    ensures Orphaned(Next(s, step), sent, m)
  {
    hide Of, DoneOf;
  }

  /** Two pushes with one shared resource each: the second message is not received with it. */
  lemma SharedResourceExample()
    ensures var p, q := Push(1, true, [5]), Push(2, true, [5]);
            var steps := [Deliver(p), Deliver(q), Start(5), Finish(5, 9)];
            && Runnable(EMPTY, steps)
            && AllReceived(Run(EMPTY, steps), q) && Run(EMPTY, steps).messages == map[1 := Complete, 2 := Pending]
  {
    hide StoreResources, Pushed, Run, Runnable;
    var p, q := Push(1, true, [5]), Push(2, true, [5]);
    var sent := map[1 := p, 2 := q];
    var more := [Start(5), Finish(5, 9)];
    var s := TwoPushes(sent, 1, 2, 5, []);
    assert s.resources == map[5 := Resource(1, Unknown, 0)];
    var t := Completed(Started(s, 5), 5, 9);
    OneStream(s, 5, 9);
    RunOne(Started(s, 5), Finish(5, 9));
    RunStep(s, Start(5), [Finish(5, 9)]);
    assert [Start(5)] + [Finish(5, 9)] == more;
    var _ := TwoPushes(sent, 1, 2, 5, more);
    assert [Deliver(p), Deliver(q)] + more == [Deliver(p), Deliver(q), Start(5), Finish(5, 9)];
    assert Of(t.resources, 1) == {5} == DoneOf(t.resources, 1);
  }

  // ----- streams that break off -----

  /** A stream that broke off cannot start again: without deletion its resource stays unfinished in
      every continuation, since a stream starts only for a resource nothing has arrived of. */
  lemma {:induction false} BrokenStreamStaysUnfinished(s: State, steps: seq<Step>, id: nat)
    requires id in s.resources && s.resources[id].status == Incoming && id !in s.running && Runnable(s, steps)
    requires Spares(steps, s.resources[id].request)
    ensures var t := Run(s, steps); id in t.resources && t.resources[id] == s.resources[id] && id !in t.running
    decreases |steps|
  {
    if steps != [] {
      hide Of, DoneOf, StoreResources;
      StepLeaves(s, steps[0], id);
      BrokenStreamStaysUnfinished(Next(s, steps[0]), steps[1..], id);
    }
  }

  lemma StepLeaves(s: State, step: Step, id: nat)
    requires id in s.resources && s.resources[id].status == Incoming && id !in s.running && Enabled(s, step)
    requires step.Delete? ==> step.message != s.resources[id].request
    ensures var t := Next(s, step); id in t.resources && t.resources[id] == s.resources[id] && id !in t.running
  {}

  /** The steps lead to the resource being received, without deleting its message. */
  ghost predicate Receives(s: State, steps: seq<Step>, id: nat)
    requires id in s.resources
  {
    && Runnable(s, steps) && Spares(steps, s.resources[id].request)
    && id in Run(s, steps).resources && Run(s, steps).resources[id].status == Received
  }

  /** Wherever a run has led, an unfinished resource can still be received exactly if its stream is
      running or nothing has arrived of it. */
  lemma CanBeReceivedIff(before: seq<Step>, id: nat)
    requires Runnable(EMPTY, before)
    requires var s := Run(EMPTY, before); id in s.resources && s.resources[id].status != Received
    ensures var s := Run(EMPTY, before);
            (exists steps :: Receives(s, steps, id)) <==> id in s.running || s.resources[id].status == Unknown
  {
    var s := Run(EMPTY, before);
    RecordsStay(before);
    if id in s.running {
      FinishReceives(s, id);
    } else if s.resources[id].status == Unknown {
      StartReceives(s, id);
    } else {
      forall steps ensures !Receives(s, steps, id) {
        if Runnable(s, steps) && Spares(steps, s.resources[id].request) {
          BrokenStreamStaysUnfinished(s, steps, id);
        }
      }
    }
  }

  lemma FinishReceives(s: State, id: nat)
    requires id in s.resources && id in s.running
    ensures exists steps :: Receives(s, steps, id)
  {
    var blob := Above(s.blobs);
    RunOne(s, Finish(id, blob));
    assert Receives(s, [Finish(id, blob)], id);
  }

  lemma StartReceives(s: State, id: nat)
    requires Startable(s, id)
    ensures exists steps :: Receives(s, steps, id)
  {
    var blob := Above(s.blobs);
    var t := Started(s, id);
    RunOne(t, Finish(id, blob));
    RunStep(s, Start(id), [Finish(id, blob)]);
    assert [Start(id)] + [Finish(id, blob)] == [Start(id), Finish(id, blob)];
    assert Receives(s, [Start(id), Finish(id, blob)], id);
  }

  /** A push, a stream that starts and breaks off: from there the resource cannot be received. */
  lemma BrokenStreamExample()
    ensures var p := Push(1, true, [5]);
            var steps := [Deliver(p), Start(5), Drop(5)];
            && Runnable(EMPTY, steps)
            && var s := Run(EMPTY, steps);
               && s.resources == map[5 := Resource(1, Incoming, 0)] && s.messages == map[1 := Pending]
               && !exists more :: Receives(s, more, 5)
  {
    var p := Push(1, true, [5]);
    var steps := [Deliver(p), Start(5), Drop(5)];
    var s1 := Pushed(EMPTY, p);
    assert s1.resources == map[5 := Resource(1, Unknown, 0)];
    var s2 := Started(s1, 5);
    var s3 := Dropped(s2, 5);
    RunOne(s2, Drop(5));
    RunStep(s1, Start(5), [Drop(5)]);
    RunStep(EMPTY, Deliver(p), [Start(5), Drop(5)]);
    assert [Start(5)] + [Drop(5)] == [Start(5), Drop(5)];
    assert [Deliver(p)] + [Start(5), Drop(5)] == steps;
    CanBeReceivedIff(steps, 5);
  }

  // ----- the handlers -----

  lemma SameCount(a: set<nat>, b: set<nat>)
    requires a <= b
    ensures |a| == |b| <==> a == b
  {
    if a != b {
      var x :| x in b && x !in a;
      Smaller(a, b - {x});
    }
  }

  lemma {:induction false} Smaller(a: set<nat>, b: set<nat>)
    requires a <= b
    ensures |a| <= |b|
    decreases |a|
  {
    if a != {} {
      var x :| x in a;
      Smaller(a - {x}, b - {x});
    }
  }

  lemma AllDone(rs: map<nat, Resource>, request: nat)
    ensures Of(rs, request) == DoneOf(rs, request)
            <==> forall r :: r in rs && rs[r].request == request ==> rs[r].status == Received
  {
    if Of(rs, request) == DoneOf(rs, request) {
      forall r | r in rs && rs[r].request == request ensures rs[r].status == Received {
        assert r in Of(rs, request);
      }
    }
  }

  lemma NothingToStore(rs: map<nat, Resource>, request: nat)
    ensures StoreResources(rs, [], request) == rs
  {}

  class Client {
    var requests: set<nat>
    var resources: map<nat, Resource>
    var messages: map<nat, MessageStatus>
    var blobs: set<nat>
    var running: map<nat, nat>

    constructor ()
      ensures Value() == EMPTY
    {
      requests, resources, messages, blobs, running := {}, map[], map[], {}, map[];
    }

    function Value(): State
      reads this
    {
      State(requests, resources, messages, blobs, running)
    }

    /** Stores what a decrypted push brings and is not there yet. */
    method ProcessPush(p: Push)
      modifies this
      ensures Value() == Pushed(old(Value()), p)
      ensures requests == if p.resources == [] then old(requests) else old(requests) + {p.id}
      ensures forall r :: r in resources <==> r in old(resources) || r in p.resources
      ensures forall r :: r in resources ==>
                resources[r] == if r in old(resources) then old(resources)[r] else Resource(p.id, Unknown, 0)
      ensures forall m :: m in messages <==> m in old(messages) || (p.text && m == p.id)
      ensures forall m :: m in messages ==>
                messages[m] == if m in old(messages) then old(messages)[m]
                               else if p.resources == [] then Complete else Pending
      ensures blobs == old(blobs) && running == old(running)
    {
      hide StoreResources;
      NothingToStore(resources, p.id);
      if p.resources != [] {
        if p.id !in requests {
          requests := requests + {p.id};
        }
        StoreNew(p);
      }
      ProcessMessage(p, |p.resources|);
    }

    /** Redelivered resources are left as they are. */
    method StoreNew(p: Push)
      modifies this`resources
      ensures resources == StoreResources(old(resources), p.resources, p.id)
    {
      assert p.resources[..0] == [];
      for k := 0 to |p.resources|
        invariant resources == StoreResources(old(resources), p.resources[..k], p.id)
      {
        assert p.resources[..k + 1][..k] == p.resources[..k];
        if p.resources[k] !in resources {
          resources := resources[p.resources[k] := Resource(p.id, Unknown, 0)];
        }
      }
      assert p.resources[..|p.resources|] == p.resources;
    }

    method ProcessMessage(p: Push, numResources: nat)
      modifies this`messages
      ensures messages == if p.text && p.id !in old(messages)
                          then old(messages)[p.id := if numResources == 0 then Complete else Pending]
                          else old(messages)
    {
      if p.text && p.id !in messages {
        messages := messages[p.id := if numResources > 0 then Pending else Complete];
      }
    }

    method CreateStreamReceiver(id: nat) returns (ok: bool)
      modifies this
      ensures ok == Startable(old(Value()), id)
      ensures Value() == if ok then Started(old(Value()), id) else old(Value())
      ensures ok <==> id in old(resources) && old(resources)[id].status == Unknown
                      && old(resources)[id].request in old(requests)
      ensures ok ==> resources == old(resources)[id := old(resources)[id].(status := Incoming)]
                     && running == old(running)[id := old(resources)[id].request]
      ensures requests == old(requests) && messages == old(messages) && blobs == old(blobs)
    {
      ok := id in resources && resources[id].status == Unknown && resources[id].request in requests;
      if ok {
        running := running[id := resources[id].request];
        resources := resources[id := resources[id].(status := Incoming)];
      }
    }

    /** The receiver's callback: `blob` is the id the database gives the new blob. */
    method ReceiverCompleted(id: nat, blob: nat)
      requires id in running
      modifies this
      ensures Value() == Completed(old(Value()), id, blob)
      ensures running == old(running) - {id} && resources.Keys == old(resources).Keys
      ensures forall r :: r in resources ==>
                resources[r] == if r == id then Resource(old(resources)[r].request, Received, blob)
                                else old(resources)[r]
      ensures forall b :: b in blobs <==>
                b == blob || (b in old(blobs) && !(id in old(resources) && old(resources)[id].data == b != 0))
      ensures var request := old(running)[id];
              var done := forall r :: r in resources && resources[r].request == request ==>
                            resources[r].status == Received;
              && requests == (if done then old(requests) - {request} else old(requests))
              && messages == if done && request in old(messages) then old(messages)[request := Complete]
                             else old(messages)
    {
      var request := running[id];
      if id in resources && resources[id].data != 0 {
        blobs := blobs - {resources[id].data};
      }
      blobs := blobs + {blob};
      if id in resources {
        resources := resources[id := resources[id].(status := Received, data := blob)];
      }
      var numResources, numCompleted := |Of(resources, request)|, |DoneOf(resources, request)|;
      SameCount(DoneOf(resources, request), Of(resources, request));
      AllDone(resources, request);
      if numCompleted == numResources {
        requests := requests - {request};
        if request in messages {
          messages := messages[request := Complete];
        }
      }
      running := running - {id};
    }

    method DropReceiver(id: nat)
      modifies this`running
      ensures Value() == Dropped(old(Value()), id)
      ensures running == old(running) - {id}
    {
      running := running - {id};
    }
  }
}
