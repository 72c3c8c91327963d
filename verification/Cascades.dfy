/** Deleting from the store: file-system nodes, resources, messages and histories share the blobs
    that hold their data. Their tables are virtual and lie in one table with one range of row ids, so
    that a condition on the row id hits a row of any of them. Tables are in rowid order. */
module Cascades {
  import opened Lists

  datatype Node = Node(kind: nat, parent: nat, data: nat)

  datatype Resource = Resource(row: nat, id: nat, kind: nat, request: nat, data: nat)

  datatype Message = Message(row: nat, id: nat, history: nat)

  /** A row of some other table, with its fields called type and data if it has them. */
  datatype Other = Other(kind: nat, data: nat)

  /** Nodes, histories and the other rows go by their row ids. */
  datatype Tables = Tables(
    vfs: map<nat, Node>, resources: seq<Resource>, messages: seq<Message>, histories: seq<nat>,
    others: map<nat, Other>, blobs: set<nat>)

  // ----- which rows stay -----

  function Not(r: Resource): Resource -> bool { q => q != r }

  function ResourceNot(id: nat): Resource -> bool { (r: Resource) => r.id != id }

  function ResourceNotIn(ids: seq<nat>): Resource -> bool { (r: Resource) => r.id !in ids }

  function RequestNotIn(ids: seq<nat>): Resource -> bool { (r: Resource) => r.request !in ids }

  function MessageNot(id: nat): Message -> bool { (m: Message) => m.id != id }

  function MessageNotIn(ids: seq<nat>): Message -> bool { (m: Message) => m.id !in ids }

  function NotOf(history: nat): Message -> bool { (m: Message) => m.history != history }

  function OtherHistory(history: nat): nat -> bool { h => h != history }

  function ResourceOffRow(row: nat): Resource -> bool { (r: Resource) => r.row != row }

  function MessageOffRow(row: nat): Message -> bool { (m: Message) => m.row != row }

  // ----- resources -----

  predicate VfsUses(vfs: map<nat, Node>, b: nat) {
    exists n :: n in vfs && vfs[n].data == b
  }

  predicate HasResource(rs: seq<Resource>, id: nat) {
    exists i :: 0 <= i < |rs| && rs[i].id == id
  }

  /** The first row with this id. */
  function ResourceById(rs: seq<Resource>, id: nat): (r: Resource)
    requires HasResource(rs, id)
    ensures r in rs && r.id == id
    decreases |rs|
  {
    if rs[0].id == id then rs[0] else ResourceById(rs[1..], id)
  }

  /** A blob that no file-system node uses goes first; if it cannot be removed, the resource stays. */
  function DeleteResource(t: Tables, id: nat): (Tables, bool) {
    if !HasResource(t.resources, id) then (t, false)
    else
      var b := ResourceById(t.resources, id).data;
      var rest := Keep(t.resources, ResourceNot(id));
      if b != 0 && !VfsUses(t.vfs, b) then
        if b in t.blobs then (t.(resources := rest, blobs := t.blobs - {b}), true) else (t, false)
      else (t.(resources := rest), true)
  }

  function ResourceIds(rs: seq<Resource>, request: nat): (ids: seq<nat>)
    ensures forall id :: id in ids <==> exists r :: r in rs && r.request == request && r.id == id
    decreases |rs|
  {
    if rs == [] then []
    else (if rs[0].request == request then [rs[0].id] else []) + ResourceIds(rs[1..], request)
  }

  /** Failures of single resources are ignored. */
  function DeleteResources(t: Tables, ids: seq<nat>): Tables
    decreases |ids|
  {
    if ids == [] then t else DeleteResources(DeleteResource(t, ids[0]).0, ids[1..])
  }

  // ----- messages and histories -----

  predicate HasMessage(ms: seq<Message>, id: nat) {
    exists i :: 0 <= i < |ms| && ms[i].id == id
  }

  function DeleteMessage(t: Tables, id: nat): (Tables, bool) {
    if !HasMessage(t.messages, id) then (t, false)
    else
      var u := DeleteResources(t, ResourceIds(t.resources, id));
      (u.(messages := Keep(u.messages, MessageNot(id))), true)
  }

  function MessageIds(ms: seq<Message>, history: nat): (ids: seq<nat>)
    ensures forall id :: id in ids <==> exists m :: m in ms && m.history == history && m.id == id
    decreases |ms|
  {
    if ms == [] then []
    else (if ms[0].history == history then [ms[0].id] else []) + MessageIds(ms[1..], history)
  }

  function DeleteMessages(t: Tables, ids: seq<nat>): Tables
    decreases |ids|
  {
    if ids == [] then t else DeleteMessages(DeleteMessage(t, ids[0]).0, ids[1..])
  }

  // ----- rows by row id -----

  /** A resource or message has this row id. */
  predicate InLists(t: Tables, row: nat) {
    || (exists i :: 0 <= i < |t.resources| && t.resources[i].row == row)
    || (exists i :: 0 <= i < |t.messages| && t.messages[i].row == row)
  }

  /** The row id is that of a row in another table than the histories. */
  predicate NoHistory(t: Tables, row: nat) {
    row in t.vfs || row in t.others || InLists(t, row)
  }

  predicate HasRow(t: Tables, row: nat) {
    row in t.histories || NoHistory(t, row)
  }

  /** A removal by row id takes the row, whatever table it is in. */
  function WithoutRow(t: Tables, row: nat): Tables {
    t.(vfs := t.vfs - {row}, histories := Keep(t.histories, OtherHistory(row)), others := t.others - {row},
       resources := Keep(t.resources, ResourceOffRow(row)), messages := Keep(t.messages, MessageOffRow(row)))
  }

  /** A row id is used in one table only. */
  predicate RowsDistinct(t: Tables) {
    && (forall h :: h in t.histories ==> !NoHistory(t, h))
    && (forall n :: n in t.vfs ==> n !in t.others && !InLists(t, n))
  }

  /** The history is looked for and removed by row id. */
  function DeleteHistory(t: Tables, history: nat): (Tables, bool) {
    if !HasRow(t, history) then (t, false)
    else
      var u := DeleteMessages(t, MessageIds(t.messages, history));
      (WithoutRow(u, history), HasRow(u, history))
  }

  // ----- integrity -----

  predicate Unique(rs: seq<Resource>) {
    forall i, j :: 0 <= i < j < |rs| ==> rs[i].id != rs[j].id
  }

  predicate UniqueMessages(ms: seq<Message>) {
    forall i, j :: 0 <= i < j < |ms| ==> ms[i].id != ms[j].id
  }

  /** Every non-zero data reference has its blob. */
  ghost predicate Integral(t: Tables) {
    && (forall n :: n in t.vfs && t.vfs[n].data != 0 ==> t.vfs[n].data in t.blobs)
    && (forall r :: r in t.resources && r.data != 0 ==> r.data in t.blobs)
  }

  /** Every blob is referenced. */
  ghost predicate Referenced(t: Tables) {
    forall b :: b in t.blobs ==> b != 0 && (VfsUses(t.vfs, b) || exists r :: r in t.resources && r.data == b)
  }

  /** No other resource holds the blob of this one, unless the file system does too. */
  ghost predicate Unshared(t: Tables, r: Resource) {
    r.data == 0 || VfsUses(t.vfs, r.data) || forall q :: q in t.resources && q.data == r.data ==> q == r
  }

  lemma {:induction false} ById(rs: seq<Resource>, r: Resource)
    requires Unique(rs) && r in rs
    ensures HasResource(rs, r.id) && ResourceById(rs, r.id) == r
    ensures forall q :: q in rs && q.id == r.id ==> q == r
  {}

  /** One resource: what goes, and when the rest stays sound. */
  lemma DeleteResourceExact(t: Tables, r: Resource)
    requires Unique(t.resources) && Integral(t) && r in t.resources
    ensures var (u, ok) := DeleteResource(t, r.id);
            && ok && u == WithoutResource(t, r)
            && (Integral(u) <==> Unshared(t, r)) && (Referenced(t) ==> Referenced(u))
  {
    ById(t.resources, r);
    KeepSame(t.resources, ResourceNot(r.id), Not(r));
  }

  /** A resource goes exactly if it is there and its blob, unless the file system uses that, is too; a
      message exactly if it is there. A call that fails changes nothing. */
  lemma SucceedsIff(t: Tables, id: nat)
    ensures DeleteResource(t, id).1 <==>
              HasResource(t.resources, id)
              && var b := ResourceById(t.resources, id).data; b == 0 || VfsUses(t.vfs, b) || b in t.blobs
    ensures !DeleteResource(t, id).1 ==> DeleteResource(t, id).0 == t
    ensures DeleteResource(t, id).1 ==> !HasResource(DeleteResource(t, id).0.resources, id)
    ensures DeleteMessage(t, id).1 <==> exists i :: 0 <= i < |t.messages| && t.messages[i].id == id
    ensures !DeleteMessage(t, id).1 ==> DeleteMessage(t, id).0 == t
  {
    var rest := Keep(t.resources, ResourceNot(id));
    forall i | 0 <= i < |rest| ensures rest[i].id != id {
      assert rest[i] in rest;
    }
  }

  /** The tables without a resource and without its blob, unless the file system uses that. */
  function WithoutResource(t: Tables, r: Resource): Tables {
    t.(resources := Keep(t.resources, Not(r)),
       blobs := if r.data == 0 || VfsUses(t.vfs, r.data) then t.blobs else t.blobs - {r.data})
  }

  // ----- a list of resources, a message, a history -----

  /** The blobs that go with some resources. */
  ghost function DataOf(t: Tables, ids: seq<nat>): set<nat> {
    set r | r in t.resources && r.id in ids && r.data != 0 && !VfsUses(t.vfs, r.data) :: r.data
  }

  lemma {:induction false} UniqueKeep(rs: seq<Resource>, p: Resource -> bool)
    requires Unique(rs)
    ensures Unique(Keep(rs, p))
    decreases |rs|
  {
    if rs != [] {
      UniqueKeep(rs[1..], p);
      forall j | 0 <= j < |Keep(rs[1..], p)| ensures Keep(rs[1..], p)[j].id != rs[0].id {
        assert Keep(rs[1..], p)[j] in rs[1..];
      }
    }
  }

  ghost function WithoutIds(t: Tables, ids: seq<nat>): Tables {
    t.(resources := Keep(t.resources, ResourceNotIn(ids)), blobs := t.blobs - DataOf(t, ids))
  }

  lemma WithoutOneMore(t: Tables, r: Resource, ids: seq<nat>)
    requires Unique(t.resources) && r in t.resources && ids != [] && ids[0] == r.id
    ensures WithoutIds(WithoutResource(t, r), ids[1..]) == WithoutIds(t, ids)
  {
    hide DataOf, VfsUses;
    var u, rest := WithoutResource(t, r), ids[1..];
    ById(t.resources, r);
    KeepTwice(t.resources, Not(r), ResourceNotIn(rest), ResourceNotIn(ids));
    DataOneMore(t, r, ids);
    assert u.blobs - DataOf(u, rest) == t.blobs - DataOf(t, ids);
  }

  lemma DataOneMore(t: Tables, r: Resource, ids: seq<nat>)
    requires Unique(t.resources) && r in t.resources && ids != [] && ids[0] == r.id
    ensures DataOf(t, ids)
            == DataOf(WithoutResource(t, r), ids[1..]) + if r.data == 0 || VfsUses(t.vfs, r.data) then {} else {r.data}
  {
    hide VfsUses;
    var u := WithoutResource(t, r);
    ById(t.resources, r);
    assert forall q :: q in u.resources <==> q in t.resources && q != r;
    assert forall q :: q in t.resources && q != r ==> (q.id in ids <==> q.id in ids[1..]);
  }

  lemma WithoutAbsent(t: Tables, ids: seq<nat>)
    requires ids != [] && forall r :: r in t.resources ==> r.id != ids[0]
    ensures WithoutIds(t, ids[1..]) == WithoutIds(t, ids)
  {
    KeepSame(t.resources, ResourceNotIn(ids[1..]), ResourceNotIn(ids));
    assert DataOf(t, ids) == DataOf(t, ids[1..]);
  }

  lemma WithoutNone(t: Tables)
    ensures WithoutIds(t, []) == t && WithoutMessages(t, []) == t
  {
    KeepEverything(t.resources, ResourceNotIn([]));
    KeepEverything(t.resources, RequestNotIn([]));
    KeepEverything(t.messages, MessageNotIn([]));
    assert DataOf(t, []) == {} == DataFor(t, []);
  }

  lemma StillUnshared(t: Tables, r: Resource, q: Resource)
    requires q in t.resources && Unshared(t, q)
    ensures Unshared(WithoutResource(t, r), q)
  {}

  /** Deleting resources one by one, none of them sharing its blob, removes exactly them and their blobs. */
  lemma {:induction false} DeleteResourcesExact(t: Tables, ids: seq<nat>)
    requires Unique(t.resources) && Integral(t)
    requires forall r :: r in t.resources && r.id in ids ==> Unshared(t, r)
    ensures var u := DeleteResources(t, ids);
            && u == WithoutIds(t, ids)
            && Unique(u.resources) && Integral(u) && (Referenced(t) ==> Referenced(u))
    decreases |ids|
  {
    hide DeleteResource, Integral, Referenced, Unshared, WithoutIds;
    if ids == [] {
      WithoutNone(t);
    } else if HasResource(t.resources, ids[0]) {
      var r := ResourceById(t.resources, ids[0]);
      var u := WithoutResource(t, r);
      DeleteResourceExact(t, r);
      UniqueKeep(t.resources, Not(r));
      forall q | q in u.resources && q.id in ids[1..] ensures Unshared(u, q) {
        StillUnshared(t, r, q);
      }
      DeleteResourcesExact(u, ids[1..]);
      WithoutOneMore(t, r, ids);
    } else {
      DeleteAbsent(t, ids[0]);
      DeleteResourcesExact(t, ids[1..]);
      WithoutAbsent(t, ids);
    }
  }

  lemma DeleteAbsent(t: Tables, id: nat)
    requires !HasResource(t.resources, id)
    ensures DeleteResource(t, id).0 == t && forall r :: r in t.resources ==> r.id != id
  {}

  /** The blobs that go with the resources of some messages. */
  ghost function DataFor(t: Tables, requests: seq<nat>): set<nat> {
    set r | r in t.resources && r.request in requests && r.data != 0 && !VfsUses(t.vfs, r.data) :: r.data
  }

  ghost function WithoutMessages(t: Tables, ids: seq<nat>): Tables {
    t.(resources := Keep(t.resources, RequestNotIn(ids)),
       messages := Keep(t.messages, MessageNotIn(ids)), blobs := t.blobs - DataFor(t, ids))
  }

  lemma DeleteMessageExact(t: Tables, id: nat)
    requires Unique(t.resources) && Integral(t)
    requires Ready(t, id)
    requires forall r :: r in t.resources && r.request == id ==> Unshared(t, r)
    ensures var u := DeleteMessage(t, id).0;
            u == WithoutMessages(t, [id]) && Unique(u.resources) && Integral(u) && (Referenced(t) ==> Referenced(u))
  {
    var ids := ResourceIds(t.resources, id);
    forall r | r in t.resources ensures r.id in ids <==> r.request == id {
      ById(t.resources, r);
      if r.id in ids {
        var q :| q in t.resources && q.request == id && q.id == r.id;
      }
    }
    DeleteResourcesExact(t, ids);
    KeepSame(t.resources, ResourceNotIn(ids), RequestNotIn([id]));
    KeepSame(t.messages, MessageNot(id), MessageNotIn([id]));
    assert DataOf(t, ids) == DataFor(t, [id]);
    if !HasMessage(t.messages, id) {
      KeepEverything(t.resources, RequestNotIn([id]));
      KeepEverything(t.messages, MessageNotIn([id]));
      assert DataFor(t, [id]) == {};
    }
  }

  lemma WithoutOneMoreMessage(t: Tables, ids: seq<nat>)
    requires ids != []
    ensures WithoutMessages(WithoutMessages(t, [ids[0]]), ids[1..]) == WithoutMessages(t, ids)
  {
    hide DataFor, VfsUses;
    var u, rest := WithoutMessages(t, [ids[0]]), ids[1..];
    KeepTwice(t.resources, RequestNotIn([ids[0]]), RequestNotIn(rest), RequestNotIn(ids));
    KeepTwice(t.messages, MessageNotIn([ids[0]]), MessageNotIn(rest), MessageNotIn(ids));
    DataForOneMore(t, ids);
    assert u.blobs - DataFor(u, rest) == t.blobs - DataFor(t, ids);
  }

  lemma DataForOneMore(t: Tables, ids: seq<nat>)
    requires ids != []
    ensures DataFor(t, ids) == DataFor(t, [ids[0]]) + DataFor(WithoutMessages(t, [ids[0]]), ids[1..])
  {
    hide VfsUses;
    var u := WithoutMessages(t, [ids[0]]);
    assert forall q :: q in u.resources <==> q in t.resources && q.request != ids[0];
  }

  /** The message is there, or nothing belongs to it. */
  ghost predicate Ready(t: Tables, id: nat) {
    HasMessage(t.messages, id) || forall r :: r in t.resources ==> r.request != id
  }

  lemma StillReady(t: Tables, gone: nat, id: nat)
    requires Ready(t, id)
    ensures Ready(WithoutMessages(t, [gone]), id)
  {
    var u := WithoutMessages(t, [gone]);
    if id != gone && HasMessage(t.messages, id) {
      var i :| 0 <= i < |t.messages| && t.messages[i].id == id;
      assert t.messages[i] in u.messages;
    }
  }

  lemma {:induction false} DeleteMessagesExact(t: Tables, ids: seq<nat>)
    requires Unique(t.resources) && Integral(t) && forall id :: id in ids ==> Ready(t, id)
    requires forall r :: r in t.resources && r.request in ids ==> Unshared(t, r)
    ensures var u := DeleteMessages(t, ids);
            u == WithoutMessages(t, ids) && Integral(u) && (Referenced(t) ==> Referenced(u))
    decreases |ids|
  {
    hide DeleteMessage, Integral, Referenced, Unshared, Ready;
    if ids == [] {
      WithoutNone(t);
    } else {
      DeleteMessageExact(t, ids[0]);
      var u := WithoutMessages(t, [ids[0]]);
      forall id | id in ids[1..] ensures Ready(u, id) {
        StillReady(t, ids[0], id);
      }
      forall r | r in u.resources && r.request in ids[1..] ensures Unshared(u, r) {
        FewerShare(t, ids[0], r);
      }
      DeleteMessagesExact(u, ids[1..]);
      WithoutOneMoreMessage(t, ids);
    }
  }

  lemma FewerShare(t: Tables, gone: nat, r: Resource)
    requires r in t.resources && Unshared(t, r)
    ensures Unshared(WithoutMessages(t, [gone]), r)
  {}

  /** Only resources, messages and blobs go. */
  ghost predicate Fewer(t: Tables, u: Tables) {
    && u.vfs == t.vfs && u.histories == t.histories && u.others == t.others
    && (forall r :: r in u.resources ==> r in t.resources) && (forall m :: m in u.messages ==> m in t.messages)
  }

  lemma {:induction false} DeleteResourcesFewer(t: Tables, ids: seq<nat>)
    ensures Fewer(t, DeleteResources(t, ids)) && DeleteResources(t, ids).messages == t.messages
    decreases |ids|
  {
    if ids != [] {
      DeleteResourcesFewer(DeleteResource(t, ids[0]).0, ids[1..]);
    }
  }

  lemma {:induction false} DeleteMessagesFewer(t: Tables, ids: seq<nat>)
    ensures Fewer(t, DeleteMessages(t, ids))
    decreases |ids|
  {
    if ids != [] {
      DeleteResourcesFewer(t, ResourceIds(t.resources, ids[0]));
      DeleteMessagesFewer(DeleteMessage(t, ids[0]).0, ids[1..]);
    }
  }

  /** The row of a history is nowhere else, so removing by its row id removes the history. */
  lemma HistoryRowGone(t: Tables, u: Tables, history: nat)
    requires Fewer(t, u) && !NoHistory(t, history)
    ensures WithoutRow(u, history) == u.(histories := Keep(u.histories, OtherHistory(history)))
    ensures !NoHistory(u, history)
  {
    forall r | r in u.resources ensures r.row != history {
      var i :| 0 <= i < |t.resources| && t.resources[i] == r;
    }
    forall m | m in u.messages ensures m.row != history {
      var i :| 0 <= i < |t.messages| && t.messages[i] == m;
    }
    KeepEverything(u.resources, ResourceOffRow(history));
    KeepEverything(u.messages, MessageOffRow(history));
    assert u.vfs - {history} == u.vfs && u.others - {history} == u.others;
    if InLists(u, history) {
      assert false;
    }
  }

  /** What deleting a history is for: the history and its messages go, and without history nothing. */
  function HistoryDeleted(t: Tables, history: nat): (Tables, bool) {
    if history !in t.histories then (t, false)
    else
      var u := DeleteMessages(t, MessageIds(t.messages, history));
      (u.(histories := Keep(u.histories, OtherHistory(history))), true)
  }

  /** It does that exactly if the id given is not the row id of something else. */
  lemma DeleteHistoryRightIff(t: Tables, history: nat)
    requires RowsDistinct(t)
    ensures DeleteHistory(t, history) == HistoryDeleted(t, history) <==> !NoHistory(t, history)
  {
    var u := DeleteMessages(t, MessageIds(t.messages, history));
    if NoHistory(t, history) {
      RowGone(u, history);
    } else if history in t.histories {
      DeleteMessagesFewer(t, MessageIds(t.messages, history));
      HistoryRowGone(t, u, history);
    }
  }

  lemma RowGone(t: Tables, row: nat)
    ensures !HasRow(WithoutRow(t, row), row)
  {
    var u := WithoutRow(t, row);
    forall i | 0 <= i < |u.resources| ensures u.resources[i].row != row {
      assert u.resources[i] in u.resources;
    }
    forall i | 0 <= i < |u.messages| ensures u.messages[i].row != row {
      assert u.messages[i] in u.messages;
    }
  }

  /** A removal by row id leaves all rows with other ids, in whatever table, and all blobs. */
  lemma OtherRowsStay(t: Tables, row: nat)
    ensures var u := WithoutRow(t, row);
            && u.blobs == t.blobs && u.vfs == t.vfs - {row} && u.others == t.others - {row}
            && (forall h :: h in u.histories <==> h in t.histories && h != row)
            && (forall r :: r in u.resources <==> r in t.resources && r.row != row)
            && (forall m :: m in u.messages <==> m in t.messages && m.row != row)
  {}

  /** A contact in row 7: deleting history 7 deletes the contact and reports success. */
  lemma ContactDeletedExample()
    ensures var t := Tables(map[], [], [], [], map[7 := Other(0, 0)], {});
            DeleteHistory(t, 7) == (t.(others := map[]), true)
  {
    assert map[7 := Other(0, 0)] - {7} == map[];
  }

  /** A message in row 7 that names 7 as its history: deleting history 7 deletes the message and, with
      its row gone when the history's is to be removed, reports failure. */
  lemma OwnMessageExample()
    ensures var t := Tables(map[], [], [Message(7, 3, 7)], [], map[], {});
            DeleteHistory(t, 7) == (t.(messages := []), false)
  {
    var t := Tables(map[], [], [Message(7, 3, 7)], [], map[], {});
    assert t.messages[1..] == [] && MessageIds(t.messages, 7) == [3] && [3][1..] == [];
    assert t.messages[0].row == 7 && t.messages[0].id == 3;
    var u := DeleteMessage(t, 3).0;
    assert u == t.(messages := []) && DeleteMessages(t, [3]) == DeleteMessages(u, []) == u;
    assert u.vfs - {7} == u.vfs && u.others - {7} == u.others;
  }

  /** A resource of a message of this history. */
  ghost predicate Doomed(t: Tables, history: nat, r: Resource) {
    r in t.resources && exists m :: m in t.messages && m.history == history && m.id == r.request
  }

  /** Deleting a history whose resources share no blob removes exactly that history, its messages,
      their resources and the blobs only they used, and keeps the store sound. */
  lemma DeleteHistoryExact(t: Tables, history: nat)
    requires Unique(t.resources) && UniqueMessages(t.messages) && Integral(t)
    requires history in t.histories && RowsDistinct(t)
    requires forall r :: Doomed(t, history, r) ==> Unshared(t, r)
    ensures var (u, ok) := DeleteHistory(t, history);
            && ok && u.vfs == t.vfs
            && u.histories == Keep(t.histories, OtherHistory(history))
            && u.messages == Keep(t.messages, NotOf(history))
            && (forall r :: r in u.resources <==> r in t.resources && !Doomed(t, history, r))
            && (forall b :: b in u.blobs <==> b in t.blobs && (VfsUses(t.vfs, b) || b == 0 ||
                                              !exists r :: Doomed(t, history, r) && r.data == b))
            && Integral(u) && (Referenced(t) ==> Referenced(u))
  {
    var ids := MessageIds(t.messages, history);
    forall id | id in ids ensures HasMessage(t.messages, id) {
      var m :| m in t.messages && m.history == history && m.id == id;
    }
    forall r | r in t.resources ensures r.request in ids <==> Doomed(t, history, r) {}
    DeleteMessagesExact(t, ids);
    forall m | m in t.messages ensures m.id in ids <==> m.history == history {
      if m.id in ids {
        var q :| q in t.messages && q.history == history && q.id == m.id;
      }
    }
    KeepSame(t.messages, MessageNotIn(ids), NotOf(history));
    HistoryRowGone(t, DeleteMessages(t, ids), history);
  }

  // ----- shared blobs break the store -----

  /** Some resource has lost its blob. */
  ghost predicate Broken(t: Tables, b: nat) {
    b != 0 && b !in t.blobs && !VfsUses(t.vfs, b) && exists r :: r in t.resources && r.data == b
  }

  /** Two resources hold one blob, and the file system does not. */
  ghost predicate AtRisk(t: Tables, r: Resource, q: Resource) {
    && r in t.resources && q in t.resources && r != q
    && r.data == q.data && r.data in t.blobs && r.data != 0 && !VfsUses(t.vfs, r.data)
  }

  lemma StaysBroken(t: Tables, id: nat, b: nat)
    requires Unique(t.resources) && Broken(t, b)
    ensures Broken(DeleteResource(t, id).0, b)
  {
    if HasResource(t.resources, id) {
      ById(t.resources, ResourceById(t.resources, id));
      hide Unique;
      var lost :| lost in t.resources && lost.data == b;
      assert lost in DeleteResource(t, id).0.resources;
    }
  }

  lemma BreaksOrStays(t: Tables, id: nat, r: Resource, q: Resource)
    requires Unique(t.resources) && AtRisk(t, r, q)
    ensures var u := DeleteResource(t, id).0; Broken(u, r.data) || (id != r.id && AtRisk(u, r, q))
  {
    if HasResource(t.resources, id) {
      var d, u := ResourceById(t.resources, id), DeleteResource(t, id).0;
      ById(t.resources, d);
      hide Unique;
      assert r != d ==> r in u.resources;
      assert q != d ==> q in u.resources;
    } else {
      assert r.id != id by { ById(t.resources, r); }
    }
  }

  lemma DeleteResourceRisk(t: Tables, id: nat, r: Resource, q: Resource)
    requires Unique(t.resources) && (Broken(t, r.data) || AtRisk(t, r, q))
    ensures var u := DeleteResource(t, id).0;
            && Unique(u.resources) && u.vfs == t.vfs && u.messages == t.messages
            && (Broken(u, r.data) || (!Broken(t, r.data) && id != r.id && AtRisk(u, r, q)))
  {
    hide Unique, Broken, AtRisk, VfsUses, HasResource;
    UniqueKeep(t.resources, ResourceNot(id));
    if Broken(t, r.data) {
      StaysBroken(t, id, r.data);
    } else {
      BreaksOrStays(t, id, r, q);
    }
  }

  lemma {:induction false} DeleteResourcesRisk(t: Tables, ids: seq<nat>, r: Resource, q: Resource)
    requires Unique(t.resources) && (Broken(t, r.data) || AtRisk(t, r, q))
    ensures var u := DeleteResources(t, ids);
            && Unique(u.resources) && u.vfs == t.vfs && u.messages == t.messages
            && (Broken(u, r.data) || (!Broken(t, r.data) && r.id !in ids && AtRisk(u, r, q)))
    decreases |ids|
  {
    hide Broken, AtRisk, DeleteResource;
    if ids != [] {
      DeleteResourceRisk(t, ids[0], r, q);
      DeleteResourcesRisk(DeleteResource(t, ids[0]).0, ids[1..], r, q);
    }
  }

  lemma DeleteMessageRisk(t: Tables, id: nat, r: Resource, q: Resource)
    requires Unique(t.resources) && (Broken(t, r.data) || (HasMessage(t.messages, r.request) && AtRisk(t, r, q)))
    ensures var u := DeleteMessage(t, id).0;
            && Unique(u.resources)
            && (Broken(u, r.data)
                || (!Broken(t, r.data) && id != r.request && HasMessage(u.messages, r.request) && AtRisk(u, r, q)))
  {
    if HasMessage(t.messages, id) {
      var ids := ResourceIds(t.resources, id);
      DeleteResourcesRisk(t, ids, r, q);
      if HasMessage(t.messages, r.request) && id != r.request {
        var i :| 0 <= i < |t.messages| && t.messages[i].id == r.request;
        assert t.messages[i] in DeleteMessage(t, id).0.messages;
      }
    }
  }

  lemma {:induction false} DeleteMessagesRisk(t: Tables, ids: seq<nat>, r: Resource, q: Resource)
    requires Unique(t.resources) && (Broken(t, r.data) || (HasMessage(t.messages, r.request) && AtRisk(t, r, q)))
    ensures Broken(DeleteMessages(t, ids), r.data) || (!Broken(t, r.data) && r.request !in ids)
    decreases |ids|
  {
    hide Broken, AtRisk, DeleteMessage, HasMessage;
    if ids != [] {
      DeleteMessageRisk(t, ids[0], r, q);
      DeleteMessagesRisk(DeleteMessage(t, ids[0]).0, ids[1..], r, q);
    }
  }

  /** Deleting a history keeps the store sound exactly if none of its resources shares its blob with
      another resource: the code asks only whether the file system still uses a blob. */
  lemma DeleteHistoryKeepsIff(t: Tables, history: nat)
    requires Unique(t.resources) && UniqueMessages(t.messages) && Integral(t)
    requires history in t.histories && RowsDistinct(t)
    ensures Integral(DeleteHistory(t, history).0) <==> forall r :: Doomed(t, history, r) ==> Unshared(t, r)
  {
    hide DeleteMessages, VfsUses, Unique;
    if r :| Doomed(t, history, r) && !Unshared(t, r) {
      var q :| q in t.resources && q.data == r.data && q != r;
      var m :| m in t.messages && m.history == history && m.id == r.request;
      var ids := MessageIds(t.messages, history);
      assert r.request in ids;
      DeleteMessagesRisk(t, ids, r, q);
      var u := DeleteMessages(t, ids);
      DeleteMessagesFewer(t, ids);
      HistoryRowGone(t, u, history);
      assert Broken(u, r.data);
    } else {
      DeleteHistoryExact(t, history);
    }
  }
}
