/** The store object: its cascades work on the tables in place, and deleting a directory deletes the
    tree below it. */
module Store {
  import opened Options
  import opened Lists
  import opened Cascades

  const DIRECTORY := 1
  const FILE := 2

  lemma KindsAre(vfs: map<nat, Node>, id: nat)
    requires id in vfs
    ensures Typed(vfs[id]) <==> vfs[id].kind == 1 || vfs[id].kind == 2
    ensures (IsDirectory(vfs, id) <==> vfs[id].kind == 1) && DIRECTORY == 1 && FILE == 2
  {}

  // ----- the forest of nodes -----

  predicate IsDirectory(vfs: map<nat, Node>, id: nat) {
    id in vfs && vfs[id].kind == DIRECTORY
  }

  /** Depths that grow from every directory to what it holds: there are no cycles. */
  ghost predicate Forest(vfs: map<nat, Node>, depth: map<nat, nat>) {
    && vfs.Keys <= depth.Keys
    && forall n :: n in vfs && IsDirectory(vfs, vfs[n].parent) ==> depth[vfs[n].parent] < depth[n]
  }

  /** `n` is `top` or inside it, through directories. */
  ghost predicate Under(vfs: map<nat, Node>, depth: map<nat, nat>, n: nat, top: nat)
    requires Forest(vfs, depth) && n in vfs
    decreases depth[n]
  {
    n == top || (IsDirectory(vfs, vfs[n].parent) && Under(vfs, depth, vfs[n].parent, top))
  }

  ghost function Tree(vfs: map<nat, Node>, depth: map<nat, nat>, top: nat): set<nat>
    requires Forest(vfs, depth)
  {
    set n | n in vfs && Under(vfs, depth, n, top)
  }

  ghost predicate IsChild(vfs: map<nat, Node>, n: nat, parent: nat) {
    n in vfs && vfs[n].parent == parent
  }

  lemma {:induction false} UnderDepth(vfs: map<nat, Node>, depth: map<nat, nat>, n: nat, top: nat)
    requires Forest(vfs, depth) && n in vfs && top in vfs && Under(vfs, depth, n, top)
    ensures n == top || depth[top] < depth[n]
    decreases depth[n]
  {
    if n != top {
      UnderDepth(vfs, depth, vfs[n].parent, top);
    }
  }

  /** What is inside a directory is inside one of its children. */
  lemma {:induction false} UnderSplit(vfs: map<nat, Node>, depth: map<nat, nat>, n: nat, top: nat)
    requires Forest(vfs, depth) && n in vfs && IsDirectory(vfs, top)
    ensures Under(vfs, depth, n, top) <==>
              n == top || exists c :: IsChild(vfs, c, top) && Under(vfs, depth, n, c)
    decreases depth[n]
  {
    if n != top {
      if IsDirectory(vfs, vfs[n].parent) {
        UnderSplit(vfs, depth, vfs[n].parent, top);
        if Under(vfs, depth, vfs[n].parent, top) {
          if vfs[n].parent == top {
            assert IsChild(vfs, n, top) && Under(vfs, depth, n, n);
          } else {
            var c :| IsChild(vfs, c, top) && Under(vfs, depth, vfs[n].parent, c);
            assert Under(vfs, depth, n, c);
          }
        }
        if c :| IsChild(vfs, c, top) && Under(vfs, depth, n, c) {
          if c == n {
            assert Under(vfs, depth, top, top);
          } else {
            assert Under(vfs, depth, vfs[n].parent, c);
          }
        }
      }
    }
  }

  /** Two children have nothing in common, and their parent is in neither. */
  lemma {:induction false} ChildrenApart(vfs: map<nat, Node>, depth: map<nat, nat>, n: nat, a: nat, b: nat, top: nat)
    requires Forest(vfs, depth) && n in vfs && IsDirectory(vfs, top) && IsChild(vfs, a, top) && IsChild(vfs, b, top)
    requires Under(vfs, depth, n, a) && Under(vfs, depth, n, b)
    ensures a == b && n != top
    decreases depth[n]
  {
    UnderDepth(vfs, depth, n, a);
    UnderDepth(vfs, depth, n, b);
    if n == a && n != b {
      UnderDepth(vfs, depth, top, b);
    } else if n == b && n != a {
      UnderDepth(vfs, depth, top, a);
    } else if n != a {
      ChildrenApart(vfs, depth, vfs[n].parent, a, b, top);
    }
  }

  /** Whole trees can go without changing what is inside what among the rest. */
  ghost predicate ClosedDown(vfs: map<nat, Node>, gone: set<nat>) {
    forall n :: n in vfs && IsDirectory(vfs, vfs[n].parent) && vfs[n].parent in gone ==> n in gone
  }

  lemma {:induction false} UnderStays(vfs: map<nat, Node>, depth: map<nat, nat>, gone: set<nat>, n: nat, top: nat)
    requires Forest(vfs, depth) && ClosedDown(vfs, gone) && n in vfs && n !in gone
    ensures Forest(vfs - gone, depth) && Under(vfs - gone, depth, n, top) == Under(vfs, depth, n, top)
    decreases depth[n]
  {
    if n != top && IsDirectory(vfs, vfs[n].parent) {
      UnderStays(vfs, depth, gone, vfs[n].parent, top);
    }
  }

  // ----- what a deletion leaves -----

  predicate ResourceUses(rs: seq<Resource>, b: nat) {
    exists i :: 0 <= i < |rs| && rs[i].data == b
  }

  predicate Typed(n: Node) {
    n.kind == DIRECTORY || n.kind == FILE
  }

  /** Only nodes of known type went, and all of them from a given set. */
  ghost predicate Shrunk(v0: map<nat, Node>, v1: map<nat, Node>, within: set<nat>) {
    && v1.Keys <= v0.Keys && (forall n :: n in v1 ==> v1[n] == v0[n])
    && forall n :: n in v0 && n !in v1 ==> n in within && Typed(v0[n])
  }

  ghost predicate AllTyped(vfs: map<nat, Node>, ns: set<nat>) {
    forall n :: n in vfs && n in ns ==> Typed(vfs[n])
  }

  /** Directories carry no data. */
  ghost predicate Dataless(vfs: map<nat, Node>) {
    forall n :: n in vfs && vfs[n].kind == DIRECTORY ==> vfs[n].data == 0
  }

  /** The blobs of removed files that no remaining node and no resource uses. */
  ghost function Freed(v0: map<nat, Node>, v1: map<nat, Node>, rs: seq<Resource>): set<nat> {
    set n | n in v0 && n !in v1 && v0[n].kind == FILE && v0[n].data != 0
            && !VfsUses(v1, v0[n].data) && !ResourceUses(rs, v0[n].data) :: v0[n].data
  }

  lemma FreedTwice(
    v0: map<nat, Node>, v1: map<nat, Node>, v2: map<nat, Node>, rs: seq<Resource>, a: set<nat>, b: set<nat>)
    requires Shrunk(v0, v1, a) && Shrunk(v1, v2, b) && Dataless(v0)
    ensures Shrunk(v0, v2, a + b) && Freed(v0, v2, rs) == Freed(v0, v1, rs) + Freed(v1, v2, rs)
  {
    hide ResourceUses;
    forall x | x in Freed(v0, v2, rs) ensures x in Freed(v0, v1, rs) + Freed(v1, v2, rs) {
      var n :| n in v0 && n !in v2 && v0[n].kind == FILE && v0[n].data == x;
      if n !in v1 && VfsUses(v1, x) {
        var m :| m in v1 && v1[m].data == x;
        assert m !in v2;
      }
    }
    forall x | x in Freed(v0, v1, rs) + Freed(v1, v2, rs) ensures x in Freed(v0, v2, rs) {
      if x in Freed(v0, v1, rs) {
        var n :| n in v0 && n !in v1 && v0[n].kind == FILE && v0[n].data == x;
        assert !VfsUses(v2, x);
      }
    }
  }

  /** Freeing just the unused blobs of removed files keeps every reference and wastes no blob. */
  lemma FreedKeeps(t: Tables, v1: map<nat, Node>, within: set<nat>)
    requires Shrunk(t.vfs, v1, within) && Integral(t) && Dataless(t.vfs)
    ensures var u := t.(vfs := v1, blobs := t.blobs - Freed(t.vfs, v1, t.resources));
            Integral(u) && Dataless(v1) && (Referenced(t) ==> Referenced(u))
  {
    var u := t.(vfs := v1, blobs := t.blobs - Freed(t.vfs, v1, t.resources));
    if Referenced(t) {
      forall b | b in u.blobs
        ensures b != 0 && (VfsUses(v1, b) || exists r :: r in t.resources && r.data == b)
      {
        if VfsUses(t.vfs, b) {
          var n :| n in t.vfs && t.vfs[n].data == b;
          if ResourceUses(t.resources, b) {
            var i :| 0 <= i < |t.resources| && t.resources[i].data == b;
            assert t.resources[i] in t.resources;
          }
        }
      }
    }
    forall r | r in t.resources && r.data != 0 ensures r.data in u.blobs {
      var i :| 0 <= i < |t.resources| && t.resources[i] == r;
      assert ResourceUses(t.resources, r.data);
    }
  }

  // ----- nodes that are rows of another table -----

  function AtRow(rs: seq<Resource>, row: nat): Option<Resource>
    decreases |rs|
  {
    if rs == [] then None else if rs[0].row == row then Some(rs[0]) else AtRow(rs[1..], row)
  }

  /** What a query for a node by row id finds in the other tables: their fields called type and data. */
  function Foreign(t: Tables, row: nat): Option<Other> {
    var r := AtRow(t.resources, row);
    if r.Some? then Some(Other(r.value.kind, r.value.data))
    else if row in t.others then Some(t.others[row])
    else if HasRow(t, row) then Some(Other(0, 0))
    else None
  }

  predicate ForeignTyped(t: Tables, row: nat) {
    var f := Foreign(t, row);
    row !in t.vfs && f.Some? && (f.value.kind == DIRECTORY || f.value.kind == FILE)
  }

  /** Everything inside the nodes with this parent. */
  ghost function Inside(vfs: map<nat, Node>, depth: map<nat, nat>, parent: nat): set<nat>
    requires Forest(vfs, depth)
  {
    set n | n in vfs && exists c :: IsChild(vfs, c, parent) && Under(vfs, depth, n, c)
  }

  // ----- what deleting a node does -----

  /** For a node: it goes with its tree, and so do the blobs of its files that nothing else uses. */
  ghost predicate NodeDeleted(t: Tables, u: Tables, ok: bool, id: nat, recursive: bool, depth: map<nat, nat>)
    requires Forest(t.vfs, depth)
  {
    && u == t.(vfs := u.vfs, blobs := u.blobs)
    && Shrunk(t.vfs, u.vfs, Tree(t.vfs, depth, id))
    && (ok ==> u.vfs == t.vfs - if recursive then Tree(t.vfs, depth, id) else {id})
    && (Dataless(t.vfs) && Integral(t) ==>
          && Integral(u) && (Referenced(t) ==> Referenced(u))
          && u.blobs == t.blobs - Freed(t.vfs, u.vfs, t.resources)
          && (ok <==> id in t.vfs && if recursive then AllTyped(t.vfs, Tree(t.vfs, depth, id)) else Typed(t.vfs[id])))
  }

  /** For a row of another table whose type reads as that of a file: the row goes, and its blob if
      nothing else uses it. */
  ghost predicate ForeignFileDeleted(t: Tables, u: Tables, ok: bool, id: nat, data: nat) {
    var v := WithoutRow(t, id);
    var frees := data != 0 && !VfsUses(v.vfs, data) && !ResourceUses(v.resources, data);
    u == (if frees then v.(blobs := v.blobs - {data}) else v) && ok == (frees ==> data in t.blobs)
  }

  /** For one whose type reads as that of a directory: nodes that have it as parent go, then the row. */
  ghost predicate ForeignDirectoryDeleted(
    t: Tables, u: Tables, ok: bool, id: nat, recursive: bool, depth: map<nat, nat>)
    requires Forest(t.vfs, depth)
  {
    var inside := if recursive then Inside(t.vfs, depth, id) else {};
    && u == (if ok then WithoutRow(t, id) else t).(vfs := u.vfs, blobs := u.blobs)
    && Shrunk(t.vfs, u.vfs, inside) && (ok ==> u.vfs == t.vfs - inside)
    && (Dataless(t.vfs) && Integral(t) ==>
          u.blobs == t.blobs - Freed(t.vfs, u.vfs, t.resources) && (ok <==> AllTyped(t.vfs, inside)))
  }

  ghost predicate Outcome(t: Tables, u: Tables, ok: bool, id: nat, recursive: bool, depth: map<nat, nat>)
    requires Forest(t.vfs, depth)
  {
    if id in t.vfs then NodeDeleted(t, u, ok, id, recursive, depth)
    else if !ForeignTyped(t, id) then !ok && u == t
    else if Foreign(t, id).value.kind == FILE then ForeignFileDeleted(t, u, ok, id, Foreign(t, id).value.data)
    else ForeignDirectoryDeleted(t, u, ok, id, recursive, depth)
  }

  /** What it is for: deleting nodes, and failing for anything else. */
  ghost predicate Promised(t: Tables, u: Tables, ok: bool, id: nat, recursive: bool, depth: map<nat, nat>)
    requires Forest(t.vfs, depth)
  {
    if id in t.vfs then NodeDeleted(t, u, ok, id, recursive, depth) else !ok && u == t
  }

  /** It does that exactly if the id given is not the row id of something else whose type reads as that
      of a node. */
  lemma DeleteVfsNodeRightIff(t: Tables, u: Tables, ok: bool, id: nat, recursive: bool, depth: map<nat, nat>)
    requires Forest(t.vfs, depth) && Dataless(t.vfs) && Integral(t) && AllTyped(t.vfs, t.vfs.Keys)
    requires Outcome(t, u, ok, id, recursive, depth)
    ensures Promised(t, u, ok, id, recursive, depth) <==> !ForeignTyped(t, id)
  {
    hide Integral, Dataless, Freed, Forest, Under, AtRow, VfsUses, ResourceUses, NodeDeleted;
    if ForeignTyped(t, id) {
      ForeignIsRow(t, id);
      RowGone(t, id);
    }
  }

  /** A resource shows its type and data as those of a node, a message or history neither. */
  lemma ForeignIs(t: Tables, row: nat)
    requires row !in t.vfs
    ensures var f := Foreign(t, row);
            if exists r :: r in t.resources && r.row == row then
              exists r :: r in t.resources && r.row == row && f == Some(Other(r.kind, r.data))
            else if row in t.others then f == Some(t.others[row])
            else if row in t.histories || exists m :: m in t.messages && m.row == row then f == Some(Other(0, 0))
            else f == None
  {
    AtRowIff(t.resources, row);
    if AtRow(t.resources, row).Some? {
      AtRowIs(t.resources, row);
    }
    if m :| m in t.messages && m.row == row {
      var i :| 0 <= i < |t.messages| && t.messages[i] == m;
    }
  }

  lemma {:induction false} AtRowIff(rs: seq<Resource>, row: nat)
    ensures AtRow(rs, row).Some? <==> exists r :: r in rs && r.row == row
    decreases |rs|
  {
    if rs != [] {
      AtRowIff(rs[1..], row);
      assert forall r :: r in rs <==> r == rs[0] || r in rs[1..];
    }
  }

  lemma ForeignIsRow(t: Tables, id: nat)
    requires Foreign(t, id).Some?
    ensures HasRow(t, id)
  {
    var r := AtRow(t.resources, id);
    if r.Some? {
      AtRowIs(t.resources, id);
    }
  }

  lemma {:induction false} AtRowIs(rs: seq<Resource>, row: nat)
    requires AtRow(rs, row).Some?
    ensures AtRow(rs, row).value in rs && AtRow(rs, row).value.row == row
    ensures exists i :: 0 <= i < |rs| && rs[i].row == row
    decreases |rs|
  {
    if rs[0].row != row {
      AtRowIs(rs[1..], row);
      var i :| 0 <= i < |rs[1..]| && rs[1..][i].row == row;
      assert rs[i + 1].row == row;
    }
  }

  /** A resource in row 7 that is kept in the store, whose type is the number of a directory: deleting
      node 7 deletes the resource, reports success and leaves its blob to nobody. */
  lemma ResourceDeletedExample(u: Tables, ok: bool)
    requires var t := Tables(map[], [Resource(7, 3, DIRECTORY, 0, 9)], [], [], map[], {9});
             Forest(t.vfs, map[]) && Outcome(t, u, ok, 7, true, map[])
    ensures ok && u == Tables(map[], [], [], [], map[], {9}) && !Referenced(u)
  {
    var t := Tables(map[], [Resource(7, 3, DIRECTORY, 0, 9)], [], [], map[], {9});
    assert t.resources[1..] == [] && Foreign(t, 7) == Some(Other(DIRECTORY, 9));
    assert Freed(t.vfs, u.vfs, t.resources) == {};
    assert !ResourceOffRow(7)(t.resources[0]);
    assert WithoutRow(t, 7).resources == Keep(t.resources[1..], ResourceOffRow(7));
  }

  /** A row of another table whose type reads as 2: it goes, and its blob exactly if no node and no other
      resource holds it. */
  lemma ForeignFileIs(t: Tables, u: Tables, ok: bool, id: nat, b: nat, recursive: bool, depth: map<nat, nat>)
    requires Forest(t.vfs, depth) && Outcome(t, u, ok, id, recursive, depth)
    requires id !in t.vfs && Foreign(t, id) == Some(Other(2, b))
    ensures forall r :: r in u.resources <==> r in t.resources && r.row != id
    ensures u.vfs == t.vfs && u.others == t.others - {id}
    ensures var held := b == 0 || VfsUses(t.vfs, b) || exists r :: r in t.resources && r.row != id && r.data == b;
            u.blobs == (if held then t.blobs else t.blobs - {b}) && (ok <==> held || b in t.blobs)
  {
    hide NodeDeleted, ForeignDirectoryDeleted, Forest, Foreign;
    assert ForeignFileDeleted(t, u, ok, id, b);
    var v := WithoutRow(t, id);
    assert t.vfs - {id} == t.vfs;
    if ResourceUses(v.resources, b) {
      var i :| 0 <= i < |v.resources| && v.resources[i].data == b;
      assert v.resources[i] in v.resources;
    }
    if r :| r in t.resources && r.row != id && r.data == b {
      assert r in v.resources;
      var i :| 0 <= i < |v.resources| && v.resources[i] == r;
    }
  }

  // ----- the store -----

  class Store {
    var vfs: map<nat, Node>
    var resources: seq<Resource>
    var messages: seq<Message>
    var histories: seq<nat>
    var others: map<nat, Other>
    var blobs: set<nat>

    constructor (t: Tables)
      ensures Value() == t
    {
      vfs, resources, messages := t.vfs, t.resources, t.messages;
      histories, others, blobs := t.histories, t.others, t.blobs;
    }

    function Value(): Tables
      reads this
    {
      Tables(vfs, resources, messages, histories, others, blobs)
    }

    /** Fails if there is no such blob. */
    method RemoveBlob(id: nat) returns (ok: bool)
      modifies this`blobs
      ensures ok == (id in old(blobs)) && blobs == old(blobs) - {id}
    {
      ok := id in blobs;
      blobs := blobs - {id};
    }

    /** Resources are deleted by id, blob first. */
    method DeleteResource(id: nat) returns (ok: bool)
      modifies this`resources, this`blobs
      ensures (Value(), ok) == Cascades.DeleteResource(old(Value()), id)
    {
      ok := false;
      if !HasResource(resources, id) {
        return;
      }
      var blobId := ResourceById(resources, id).data;
      if blobId != 0 && !VfsUses(vfs, blobId) {
        var removed := RemoveBlob(blobId);
        if !removed {
          assert blobs == old(blobs);
          return;
        }
      }
      resources := Keep(resources, ResourceNot(id));
      ok := true;
    }

    /** Resources that cannot be deleted do not stop the message from going. */
    method DeleteMessage(id: nat) returns (ok: bool)
      modifies this`resources, this`messages, this`blobs
      ensures (Value(), ok) == Cascades.DeleteMessage(old(Value()), id)
    {
      hide Cascades.DeleteResource;
      if !HasMessage(messages, id) {
        return false;
      }
      var ids := ResourceIds(resources, id);
      var k := 0;
      while k < |ids|
        invariant k <= |ids| && messages == old(messages)
        invariant DeleteResources(Value(), ids[k..]) == DeleteResources(old(Value()), ids)
      {
        assert ids[k..][1..] == ids[k + 1..];
        var _ := DeleteResource(ids[k]);
        k := k + 1;
      }
      messages := Keep(messages, MessageNot(id));
      ok := true;
    }

    method RemoveRow(row: nat) returns (ok: bool)
      modifies this`vfs, this`resources, this`messages, this`histories, this`others
      ensures Value() == WithoutRow(old(Value()), row) && ok == HasRow(old(Value()), row)
    {
      ok := HasRow(Value(), row);
      var t := WithoutRow(Value(), row);
      vfs, resources, messages, histories, others := t.vfs, t.resources, t.messages, t.histories, t.others;
    }

    method DeleteHistory(history: nat) returns (ok: bool)
      modifies this
      ensures (Value(), ok) == Cascades.DeleteHistory(old(Value()), history)
    {
      hide Cascades.DeleteMessage, HasRow, WithoutRow;
      if !HasRow(Value(), history) {
        return false;
      }
      var ids := MessageIds(messages, history);
      var k := 0;
      while k < |ids|
        invariant k <= |ids|
        invariant DeleteMessages(Value(), ids[k..]) == DeleteMessages(old(Value()), ids)
      {
        assert ids[k..][1..] == ids[k + 1..];
        var _ := DeleteMessage(ids[k]);
        k := k + 1;
      }
      ok := RemoveRow(history);
    }

    method Children(id: nat) returns (nodes: seq<nat>)
      ensures forall n :: n in nodes <==> IsChild(vfs, n, id)
      ensures forall i, j :: 0 <= i < j < |nodes| ==> nodes[i] != nodes[j]
    {
      nodes := [];
      var keys := vfs.Keys;
      while keys != {}
        invariant keys <= vfs.Keys
        invariant forall n :: n in nodes <==> IsChild(vfs, n, id) && n !in keys
        invariant forall i, j :: 0 <= i < j < |nodes| ==> nodes[i] != nodes[j]
        decreases |keys|
      {
        var n :| n in keys;
        keys := keys - {n};
        if vfs[n].parent == id {
          nodes := nodes + [n];
        }
      }
    }

    method RemoveFile(id: nat) returns (ok: bool)
      requires id in vfs && vfs[id].kind == FILE
      modifies this`vfs, this`blobs
      ensures vfs == old(vfs) - {id}
      ensures Dataless(old(vfs)) && Integral(old(Value())) ==>
                ok && blobs == old(blobs) - Freed(old(vfs), vfs, resources)
    {
      var blobId := vfs[id].data;
      vfs := vfs - {id};
      if blobId != 0 && !VfsUses(vfs, blobId) && !ResourceUses(resources, blobId) {
        ok := RemoveBlob(blobId);
        return;
      }
      ok := true;
    }

    /** Deletes a node, and with `recursive` everything inside it first; gives up at the first node of
        unknown type or blob that cannot be removed. */
    method DeleteNode(id: nat, recursive: bool, ghost depth: map<nat, nat>) returns (ok: bool)
      requires Forest(vfs, depth) && id in vfs
      modifies this`vfs, this`blobs
      ensures NodeDeleted(old(Value()), Value(), ok, id, recursive, depth)
      decreases Tree(vfs, depth, id)
    {
      hide Integral, Referenced, Dataless, VfsUses, Freed, Forest, Under;
      ok := false;
      NothingFreed(vfs, resources);
      UnderSelf(vfs, depth, id);
      var kind := vfs[id].kind;
      if kind == DIRECTORY {
        ok := true;
        ghost var inside := {};
        if recursive {
          inside := Tree(vfs, depth, id) - {id};
          NoRoot(vfs);
          ok := DeleteChildren(id, map[], depth);
          NoRoot(vfs);
        }
        if ok {
          ghost var middle := vfs;
          vfs := vfs - {id};
          DirectoryGone(old(vfs), middle, id, resources, inside);
        }
      } else if kind == FILE {
        LeafTree(vfs, depth, id);
        ok := RemoveFile(id);
      }
      if Dataless(old(vfs)) && Integral(old(Value())) {
        FreedKeeps(old(Value()), vfs, Tree(old(vfs), depth, id));
        assert Value() == old(Value()).(vfs := vfs, blobs := old(blobs) - Freed(old(vfs), vfs, resources));
      }
    }

    /** Deletes the nodes with a given parent and what is inside them, child by child. The parent is a
        directory, or `root` stands for a row of another table. */
    method DeleteChildren(id: nat, ghost root: map<nat, Node>, ghost depth: map<nat, nat>) returns (ok: bool)
      requires IsRoot(root, id, vfs) && Forest(vfs + root, depth) && IsDirectory(vfs + root, id)
      modifies this`vfs, this`blobs
      ensures IsRoot(root, id, vfs)
      ensures Shrunk(old(vfs) + root, vfs + root, Tree(old(vfs) + root, depth, id) - {id})
      ensures ok ==> vfs + root == old(vfs) + root - (Tree(old(vfs) + root, depth, id) - {id})
      ensures Dataless(old(vfs)) && Integral(old(Value())) ==>
                && blobs == old(blobs) - Freed(old(vfs), vfs, resources)
                && (ok <==> AllTyped(old(vfs) + root, Tree(old(vfs) + root, depth, id)))
      decreases Tree(vfs + root, depth, id), 0
    {
      hide Integral, Dataless, VfsUses, Freed, Forest, Under;
      var nodes := Children(id);
      ghost var start, gone := Value(), {};
      ghost var t0 := With(start, root);
      RootHides(start, start, root, id);
      NothingFreed(vfs + root, resources);
      assert t0.vfs - {} == t0.vfs;
      for k := 0 to |nodes|
        invariant IsRoot(root, id, vfs) && vfs.Keys <= old(vfs.Keys)
        invariant Cleared(t0, With(Value(), root), depth, id, nodes, k, gone)
      {
        ghost var t1 := Value();
        ChildTree(t0, With(t1, root), depth, id, nodes, k, gone);
        RootHides(t1, t1, root, id);
        ChildWithoutRoot(t1.vfs, root, depth, nodes[k], id);
        var one := DeleteNode(nodes[k], true, depth);
        ghost var tree := Tree(t1.vfs, depth, nodes[k]);
        RootHides(t1, Value(), root, id);
        ShrunkWith(t1.vfs, vfs, root, id, tree);
        ChildDone(t0, With(t1, root), With(Value(), root), depth, id, nodes, k, gone, tree, one);
        if !one {
          RootHides(start, Value(), root, id);
          return false;
        }
        gone := gone + tree;
      }
      ok := true;
      RootHides(start, Value(), root, id);
      AllCleared(t0, With(Value(), root), depth, id, nodes, gone);
    }

    method DeleteForeignFile(id: nat, blobId: nat) returns (ok: bool)
      requires id !in vfs && HasRow(Value(), id)
      modifies this
      ensures ForeignFileDeleted(old(Value()), Value(), ok, id, blobId)
    {
      hide HasRow;
      var _ := RemoveRow(id);
      if blobId != 0 && !VfsUses(vfs, blobId) && !ResourceUses(resources, blobId) {
        ok := RemoveBlob(blobId);
        return;
      }
      ok := true;
    }

    method DeleteForeignDirectory(id: nat, recursive: bool, ghost depth: map<nat, nat>) returns (ok: bool)
      requires Forest(vfs, depth) && id !in vfs && HasRow(Value(), id)
      modifies this
      ensures ForeignDirectoryDeleted(old(Value()), Value(), ok, id, recursive, depth)
    {
      hide HasRow, Integral, Dataless, VfsUses, Freed, Forest, Under;
      ok := true;
      NothingFreed(vfs, resources);
      if recursive {
        ghost var root, deep := RootFor(vfs, depth, id);
        ok := DeleteChildren(id, root, deep);
        RootGone(old(vfs), vfs, root, depth, deep, id);
      }
      if ok {
        ghost var middle := vfs;
        var _ := RemoveRow(id);
        assert middle - {id} == middle;
      }
    }

    /** The node is looked for by row id, so that a row of another table is found too. */
    method DeleteVfsNode(id: nat, recursive: bool, ghost depth: map<nat, nat>) returns (ok: bool)
      requires Forest(vfs, depth)
      modifies this
      ensures Outcome(old(Value()), Value(), ok, id, recursive, depth)
    {
      if id in vfs {
        ok := DeleteNode(id, recursive, depth);
        return;
      }
      ok := false;
      var f := Foreign(Value(), id);
      if f.None? {
        return;
      }
      ForeignIsRow(Value(), id);
      if f.value.kind == DIRECTORY {
        ok := DeleteForeignDirectory(id, recursive, depth);
      } else if f.value.kind == FILE {
        ok := DeleteForeignFile(id, f.value.data);
      }
    }
  }

  // ----- a row of another table as the root of what names it as parent -----

  function With(t: Tables, root: map<nat, Node>): Tables {
    t.(vfs := t.vfs + root)
  }

  /** Nothing, or a directory without data that stands for a row of another table. */
  ghost predicate IsRoot(root: map<nat, Node>, id: nat, vfs: map<nat, Node>) {
    && root.Keys <= {id} && root.Keys !! vfs.Keys
    && forall n :: n in root ==>
         root[n].kind == DIRECTORY && root[n].data == 0 && root[n].parent !in vfs && root[n].parent != id
  }

  lemma NoRoot(vfs: map<nat, Node>)
    ensures vfs + map[] == vfs
  {}

  /** It changes neither what is used nor who is a child. */
  lemma RootHides(t: Tables, u: Tables, root: map<nat, Node>, id: nat)
    requires IsRoot(root, id, t.vfs) && IsRoot(root, id, u.vfs)
    ensures Dataless(t.vfs + root) == Dataless(t.vfs) && Integral(With(t, root)) == Integral(t)
    ensures Freed(t.vfs + root, u.vfs + root, t.resources) == Freed(t.vfs, u.vfs, t.resources)
    ensures forall n :: IsChild(t.vfs + root, n, id) <==> IsChild(t.vfs, n, id)
  {
    RootUses(t.vfs, root, id);
    RootUses(u.vfs, root, id);
    hide VfsUses, ResourceUses;
    assert Dataless(t.vfs) ==> Dataless(t.vfs + root);
    if Dataless(t.vfs + root) {
      forall n | n in t.vfs && t.vfs[n].kind == DIRECTORY ensures t.vfs[n].data == 0 {
        assert (t.vfs + root)[n] == t.vfs[n];
      }
    }
    if Integral(With(t, root)) {
      forall n | n in t.vfs && t.vfs[n].data != 0 ensures t.vfs[n].data in t.blobs {
        assert With(t, root).vfs[n] == t.vfs[n];
      }
    }
  }

  lemma RootUses(vfs: map<nat, Node>, root: map<nat, Node>, id: nat)
    requires IsRoot(root, id, vfs)
    ensures forall b :: b != 0 ==> VfsUses(vfs + root, b) == VfsUses(vfs, b)
  {
    forall b | b != 0 ensures VfsUses(vfs + root, b) == VfsUses(vfs, b) {
      if n :| n in vfs && vfs[n].data == b {
        assert (vfs + root)[n].data == b;
      }
    }
  }

  lemma {:induction false} UnderWithoutRoot(
    vfs: map<nat, Node>, root: map<nat, Node>, depth: map<nat, nat>, n: nat, c: nat, id: nat)
    requires IsRoot(root, id, vfs) && Forest(vfs + root, depth) && n in vfs && c in vfs
    ensures Forest(vfs, depth) && Under(vfs + root, depth, n, c) == Under(vfs, depth, n, c)
    decreases depth[n]
  {
    ForestWithoutRoot(vfs, root, depth, id);
    var parent := vfs[n].parent;
    assert (vfs + root)[n] == vfs[n];
    if n != c && IsDirectory(vfs + root, parent) && parent in vfs {
      UnderWithoutRoot(vfs, root, depth, parent, c, id);
    }
  }

  lemma ForestWithoutRoot(vfs: map<nat, Node>, root: map<nat, Node>, depth: map<nat, nat>, id: nat)
    requires IsRoot(root, id, vfs) && Forest(vfs + root, depth)
    ensures Forest(vfs, depth)
  {
    forall n | n in vfs && IsDirectory(vfs, vfs[n].parent) ensures depth[vfs[n].parent] < depth[n] {
      assert (vfs + root)[n] == vfs[n] && IsDirectory(vfs + root, vfs[n].parent);
    }
  }

  /** The tree of a child is the same with and without it. */
  lemma ChildWithoutRoot(vfs: map<nat, Node>, root: map<nat, Node>, depth: map<nat, nat>, c: nat, id: nat)
    requires IsRoot(root, id, vfs) && Forest(vfs + root, depth) && c in vfs
    ensures Forest(vfs, depth) && Tree(vfs, depth, c) == Tree(vfs + root, depth, c)
  {
    ForestWithoutRoot(vfs, root, depth, id);
    forall n | n in vfs ensures Under(vfs + root, depth, n, c) == Under(vfs, depth, n, c) {
      UnderWithoutRoot(vfs, root, depth, n, c, id);
    }
  }

  lemma ShrunkWith(v0: map<nat, Node>, v1: map<nat, Node>, root: map<nat, Node>, id: nat, tree: set<nat>)
    requires IsRoot(root, id, v0) && Shrunk(v0, v1, tree) && tree <= v0.Keys
    ensures Shrunk(v0 + root, v1 + root, tree) && (v1 == v0 - tree ==> v1 + root == v0 + root - tree)
    ensures AllTyped(v0 + root, tree) == AllTyped(v0, tree)
  {
    forall n | n in tree ensures (v0 + root)[n] == v0[n] {}
  }

  lemma {:induction false} UnderAnyDepth(vfs: map<nat, Node>, d: map<nat, nat>, e: map<nat, nat>, n: nat, c: nat)
    requires Forest(vfs, d) && Forest(vfs, e) && n in vfs
    ensures Under(vfs, d, n, c) == Under(vfs, e, n, c)
    decreases d[n]
  {
    if n != c && IsDirectory(vfs, vfs[n].parent) {
      UnderAnyDepth(vfs, d, e, vfs[n].parent, c);
    }
  }

  lemma RootFor(vfs: map<nat, Node>, depth: map<nat, nat>, id: nat) returns (root: map<nat, Node>, deep: map<nat, nat>)
    requires Forest(vfs, depth) && id !in vfs
    ensures IsRoot(root, id, vfs) && Forest(vfs + root, deep) && IsDirectory(vfs + root, id)
  {
    var nowhere := Above(vfs.Keys + {id});
    root := map[id := Node(DIRECTORY, nowhere, 0)];
    deep := map n | n in vfs.Keys + {id} :: if n in vfs then depth[n] + 1 else 0;
  }

  lemma {:induction false} Above(ns: set<nat>) returns (n: nat)
    ensures forall m :: m in ns ==> m < n
    decreases |ns|
  {
    n := 0;
    if ns != {} {
      var m :| m in ns;
      var k := Above(ns - {m});
      n := if m < k then k else m + 1;
      assert forall x :: x in ns ==> x == m || x in ns - {m};
    }
  }

  /** What is below it is what is inside the nodes that name it as parent. */
  lemma RootInside(vfs: map<nat, Node>, root: map<nat, Node>, depth: map<nat, nat>, deep: map<nat, nat>, id: nat)
    requires IsRoot(root, id, vfs) && Forest(vfs, depth) && Forest(vfs + root, deep) && IsDirectory(vfs + root, id)
    requires id !in vfs
    ensures Tree(vfs + root, deep, id) == Inside(vfs, depth, id) + {id}
  {
    hide Forest, Under;
    ForestWithoutRoot(vfs, root, deep, id);
    UnderSelf(vfs + root, deep, id);
    forall n, c | n in vfs && c in vfs ensures Under(vfs + root, deep, n, c) == Under(vfs, depth, n, c) {
      UnderWithoutRoot(vfs, root, deep, n, c, id);
      UnderAnyDepth(vfs, deep, depth, n, c);
    }
    forall n | n in vfs ensures n in Tree(vfs + root, deep, id) <==> n in Inside(vfs, depth, id) {
      UnderSplit(vfs + root, deep, n, id);
      forall c ensures IsChild(vfs + root, c, id) <==> IsChild(vfs, c, id) {}
    }
  }

  lemma RootGone(v0: map<nat, Node>, v1: map<nat, Node>, root: map<nat, Node>, depth: map<nat, nat>,
                 deep: map<nat, nat>, id: nat)
    requires IsRoot(root, id, v0) && IsRoot(root, id, v1) && id !in v0
    requires Forest(v0, depth) && Forest(v0 + root, deep) && IsDirectory(v0 + root, id)
    requires Shrunk(v0 + root, v1 + root, Tree(v0 + root, deep, id) - {id})
    ensures var inside := Inside(v0, depth, id);
            && Shrunk(v0, v1, inside)
            && (v1 + root == v0 + root - (Tree(v0 + root, deep, id) - {id}) ==> v1 == v0 - inside)
            && AllTyped(v0 + root, Tree(v0 + root, deep, id)) == AllTyped(v0, inside)
  {
    hide Forest, Under, Inside;
    RootInside(v0, root, depth, deep, id);
    var inside := Inside(v0, depth, id);
    InsideOwn(v0, depth, id);
    assert Tree(v0 + root, deep, id) - {id} == inside;
    forall n | n in v1 ensures n in v0 && v1[n] == v0[n] {
      assert (v1 + root)[n] == v1[n];
    }
    forall n | n in v0 && n !in v1 ensures n in inside && Typed(v0[n]) {
      assert (v0 + root)[n] == v0[n] && n !in v1 + root;
    }
    if v1 + root == v0 + root - inside {
      forall n | n in v0 ensures n in v1 <==> n !in inside {
        assert n in v1 + root <==> n in v0 + root - inside;
      }
      assert v1 == v0 - inside;
    }
    forall n | n in inside ensures (v0 + root)[n] == v0[n] {}
  }

  lemma InsideOwn(vfs: map<nat, Node>, depth: map<nat, nat>, id: nat)
    requires Forest(vfs, depth)
    ensures Inside(vfs, depth, id) <= vfs.Keys
  {}

  lemma NothingFreed(vfs: map<nat, Node>, rs: seq<Resource>)
    ensures Freed(vfs, vfs, rs) == {}
  {}

  lemma LeafTree(vfs: map<nat, Node>, depth: map<nat, nat>, id: nat)
    requires Forest(vfs, depth) && id in vfs && !IsDirectory(vfs, id)
    ensures Tree(vfs, depth, id) == {id}
  {
    forall n | n in vfs && n != id ensures !Under(vfs, depth, n, id) {
      NotUnderLeaf(vfs, depth, n, id);
    }
  }

  lemma {:induction false} NotUnderLeaf(vfs: map<nat, Node>, depth: map<nat, nat>, n: nat, id: nat)
    requires Forest(vfs, depth) && n in vfs && n != id && !IsDirectory(vfs, id)
    ensures !Under(vfs, depth, n, id)
    decreases depth[n]
  {
    if IsDirectory(vfs, vfs[n].parent) {
      NotUnderLeaf(vfs, depth, vfs[n].parent, id);
    }
  }

  /** The directory itself goes last and frees nothing. */
  lemma DirectoryGone(v0: map<nat, Node>, v1: map<nat, Node>, id: nat, rs: seq<Resource>, inside: set<nat>)
    requires Shrunk(v0, v1, inside) && v1 == v0 - inside && IsDirectory(v1, id)
    ensures Shrunk(v0, v1 - {id}, inside + {id}) && v1 - {id} == v0 - (inside + {id})
    ensures Dataless(v0) ==> Freed(v0, v1 - {id}, rs) == Freed(v0, v1, rs)
  {
    hide VfsUses, ResourceUses;
    assert Freed(v1, v1 - {id}, rs) == {};
    if Dataless(v0) {
      FreedTwice(v0, v1, v1 - {id}, rs, inside, {id});
    }
  }

  /** The first `k` children of a directory are gone with all that was inside them. */
  ghost predicate Cleared(t0: Tables, t: Tables, depth: map<nat, nat>, id: nat, nodes: seq<nat>, k: nat, gone: set<nat>)
  {
    && k <= |nodes| && Forest(t0.vfs, depth) && IsDirectory(t0.vfs, id)
    && (forall n :: n in nodes <==> IsChild(t0.vfs, n, id))
    && (forall i, j :: 0 <= i < j < |nodes| ==> nodes[i] != nodes[j])
    && (forall n :: n in gone <==> n in t0.vfs && exists j :: 0 <= j < k && Under(t0.vfs, depth, n, nodes[j]))
    && t == t0.(vfs := t.vfs, blobs := t.blobs) && t.vfs == t0.vfs - gone && AllTyped(t0.vfs, gone)
    && (Dataless(t0.vfs) && Integral(t0) ==> t.blobs == t0.blobs - Freed(t0.vfs, t.vfs, t0.resources))
  }

  /** A child's tree is inside its parent's, without the parent. */
  lemma InsideParent(vfs: map<nat, Node>, depth: map<nat, nat>, n: nat, c: nat, id: nat)
    requires Forest(vfs, depth) && IsDirectory(vfs, id) && IsChild(vfs, c, id) && n in vfs && Under(vfs, depth, n, c)
    ensures n in Tree(vfs, depth, id) && n != id
  {
    UnderSplit(vfs, depth, n, id);
    UnderDepth(vfs, depth, n, c);
  }

  lemma GoneInside(t0: Tables, t: Tables, depth: map<nat, nat>, id: nat, nodes: seq<nat>, k: nat, gone: set<nat>)
    requires Cleared(t0, t, depth, id, nodes, k, gone)
    ensures gone <= Tree(t0.vfs, depth, id) - {id} && ClosedDown(t0.vfs, gone)
    ensures Shrunk(t0.vfs, t.vfs, gone)
  {
    hide Under, Forest;
    forall n | n in gone ensures n in Tree(t0.vfs, depth, id) - {id} {
      var j :| 0 <= j < k && Under(t0.vfs, depth, n, nodes[j]);
      assert nodes[j] in nodes;
      InsideParent(t0.vfs, depth, n, nodes[j], id);
    }
    forall n | n in t0.vfs && IsDirectory(t0.vfs, t0.vfs[n].parent) && t0.vfs[n].parent in gone ensures n in gone {
      var j :| 0 <= j < k && Under(t0.vfs, depth, t0.vfs[n].parent, nodes[j]);
      UnderParent(t0.vfs, depth, n, nodes[j]);
    }
  }

  lemma UnderParent(vfs: map<nat, Node>, depth: map<nat, nat>, n: nat, top: nat)
    requires Forest(vfs, depth) && n in vfs && IsDirectory(vfs, vfs[n].parent) && Under(vfs, depth, vfs[n].parent, top)
    ensures Under(vfs, depth, n, top)
  {}

  lemma ChildTree(t0: Tables, t: Tables, depth: map<nat, nat>, id: nat, nodes: seq<nat>, k: nat, gone: set<nat>)
    requires Cleared(t0, t, depth, id, nodes, k, gone) && k < |nodes|
    ensures Forest(t.vfs, depth) && nodes[k] in t.vfs
    ensures Tree(t.vfs, depth, nodes[k]) == Tree(t0.vfs, depth, nodes[k]) < Tree(t0.vfs, depth, id)
    ensures Dataless(t0.vfs) && Integral(t0) ==> Dataless(t.vfs) && Integral(t)
  {
    hide Integral, Dataless, Freed;
    GoneInside(t0, t, depth, id, nodes, k, gone);
    assert nodes[k] in nodes;
    ChildrenDisjoint(t0, t, depth, id, nodes, k, gone);
    StillThere(t0.vfs, depth, gone, nodes[k]);
    forall n | n in Tree(t0.vfs, depth, nodes[k]) ensures n in Tree(t0.vfs, depth, id) - {id} {
      InsideParent(t0.vfs, depth, n, nodes[k], id);
    }
    assert id in Tree(t0.vfs, depth, id);
    if Dataless(t0.vfs) && Integral(t0) {
      FreedKeeps(t0, t.vfs, gone);
    }
  }

  lemma ChildrenDisjoint(t0: Tables, t: Tables, depth: map<nat, nat>, id: nat, nodes: seq<nat>, k: nat, gone: set<nat>)
    requires Cleared(t0, t, depth, id, nodes, k, gone) && k < |nodes|
    ensures gone !! Tree(t0.vfs, depth, nodes[k]) && nodes[k] !in gone
  {
    hide Under, Forest, Freed;
    assert nodes[k] in nodes;
    forall n | n in gone ensures n !in Tree(t0.vfs, depth, nodes[k]) {
      var j :| 0 <= j < k && Under(t0.vfs, depth, n, nodes[j]);
      assert nodes[j] in nodes;
      if n in Tree(t0.vfs, depth, nodes[k]) {
        ChildrenApart(t0.vfs, depth, n, nodes[j], nodes[k], id);
      }
    }
    assert nodes[k] in Tree(t0.vfs, depth, nodes[k]) by { UnderSelf(t0.vfs, depth, nodes[k]); }
  }

  lemma UnderSelf(vfs: map<nat, Node>, depth: map<nat, nat>, n: nat)
    requires Forest(vfs, depth) && n in vfs
    ensures Under(vfs, depth, n, n)
  {}

  lemma StillThere(vfs: map<nat, Node>, depth: map<nat, nat>, gone: set<nat>, top: nat)
    requires Forest(vfs, depth) && ClosedDown(vfs, gone) && gone !! Tree(vfs, depth, top)
    ensures Forest(vfs - gone, depth) && Tree(vfs - gone, depth, top) == Tree(vfs, depth, top)
  {
    forall n | n in vfs - gone ensures Under(vfs - gone, depth, n, top) == Under(vfs, depth, n, top) {
      UnderStays(vfs, depth, gone, n, top);
    }
  }

  lemma ChildDone(t0: Tables, t1: Tables, t2: Tables, depth: map<nat, nat>, id: nat, nodes: seq<nat>, k: nat,
                  gone: set<nat>, tree: set<nat>, ok: bool)
    requires Cleared(t0, t1, depth, id, nodes, k, gone) && k < |nodes|
    requires tree == Tree(t0.vfs, depth, nodes[k])
    requires t2 == t1.(vfs := t2.vfs, blobs := t2.blobs)
    requires Shrunk(t1.vfs, t2.vfs, tree) && (ok ==> t2.vfs == t1.vfs - tree)
    requires Dataless(t0.vfs) && Integral(t0) ==>
               t2.blobs == t1.blobs - Freed(t1.vfs, t2.vfs, t1.resources) && (ok <==> AllTyped(t1.vfs, tree))
    ensures ok ==> Cleared(t0, t2, depth, id, nodes, k + 1, gone + tree)
    ensures Shrunk(t0.vfs, t2.vfs, Tree(t0.vfs, depth, id) - {id})
    ensures Dataless(t0.vfs) && Integral(t0) ==>
              && t2.blobs == t0.blobs - Freed(t0.vfs, t2.vfs, t0.resources)
              && (!ok ==> !AllTyped(t0.vfs, Tree(t0.vfs, depth, id)))
  {
    hide Integral, Dataless, Freed, Under, Forest;
    GoneInside(t0, t1, depth, id, nodes, k, gone);
    ChildrenDisjoint(t0, t1, depth, id, nodes, k, gone);
    assert nodes[k] in nodes;
    forall n | n in tree ensures n in Tree(t0.vfs, depth, id) - {id} {
      InsideParent(t0.vfs, depth, n, nodes[k], id);
    }
    if Dataless(t0.vfs) && Integral(t0) {
      FreedTwice(t0.vfs, t1.vfs, t2.vfs, t0.resources, gone, tree);
    }
    if ok {
      OneMoreGone(t0, depth, nodes, k, gone);
    }
  }

  lemma OneMoreGone(t0: Tables, depth: map<nat, nat>, nodes: seq<nat>, k: nat, gone: set<nat>)
    requires Forest(t0.vfs, depth) && k < |nodes|
    requires forall n :: n in gone <==> n in t0.vfs && exists j :: 0 <= j < k && Under(t0.vfs, depth, n, nodes[j])
    ensures forall n :: n in gone + Tree(t0.vfs, depth, nodes[k]) <==>
              n in t0.vfs && exists j :: 0 <= j < k + 1 && Under(t0.vfs, depth, n, nodes[j])
  {
    hide Under, Forest;
  }

  lemma AllCleared(t0: Tables, t: Tables, depth: map<nat, nat>, id: nat, nodes: seq<nat>, gone: set<nat>)
    requires Cleared(t0, t, depth, id, nodes, |nodes|, gone)
    ensures gone == Tree(t0.vfs, depth, id) - {id}
    ensures Shrunk(t0.vfs, t.vfs, gone) && AllTyped(t0.vfs, Tree(t0.vfs, depth, id))
  {
    hide Freed, Under, Forest;
    GoneInside(t0, t, depth, id, nodes, |nodes|, gone);
    forall n | n in Tree(t0.vfs, depth, id) - {id} ensures n in gone {
      UnderSplit(t0.vfs, depth, n, id);
      var c :| IsChild(t0.vfs, c, id) && Under(t0.vfs, depth, n, c);
      assert c in nodes;
    }
  }
}
