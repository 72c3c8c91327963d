/** The incoming messages in the store's tables: what the handlers keep is what the cascades need. */
module InboxStore {
  import Cascades
  import Inbox
  import opened Lists

  /** The tables hold the messages, resources and blobs of a state; the rest of them is free. */
  ghost predicate Represents(t: Cascades.Tables, s: Inbox.State) {
    && Cascades.Unique(t.resources) && t.blobs == s.blobs
    && (forall r :: r in t.resources ==> Holds(s, r))
    && (forall id :: id in s.resources ==> Cascades.HasResource(t.resources, id))
    && (forall id :: id in s.messages <==> Cascades.HasMessage(t.messages, id))
  }

  ghost predicate Holds(s: Inbox.State, r: Cascades.Resource) {
    r.id in s.resources && s.resources[r.id].request == r.request && s.resources[r.id].data == r.data
  }

  /** The blobs the file system uses. */
  function Files(t: Cascades.Tables): set<nat> {
    set n | n in t.vfs :: t.vfs[n].data
  }

  ghost predicate FilesKept(t: Cascades.Tables) {
    forall n :: n in t.vfs && t.vfs[n].data != 0 ==> t.vfs[n].data in t.blobs
  }

  /** Whatever pushes, streams and deletions have led to: references are sound and no two resources
      share a blob, so that deleting a history is exact. */
  lemma InboxIsUnshared(t: Cascades.Tables, s: Inbox.State)
    requires Inbox.BlobsOwn(s) && Represents(t, s) && FilesKept(t)
    ensures Cascades.Integral(t) && forall r :: r in t.resources ==> Cascades.Unshared(t, r)
  {
    forall r | r in t.resources ensures Cascades.Unshared(t, r) && (r.data != 0 ==> r.data in t.blobs) {
      assert Holds(s, r);
      forall q | q in t.resources && q.data == r.data && r.data != 0 ensures q == r {
        assert Holds(s, q);
        Cascades.ById(t.resources, r);
      }
    }
  }

  /** Deleting a message from the tables is the deletion of the inbox model. */
  lemma DeletionIsCascade(t: Cascades.Tables, s: Inbox.State, m: nat)
    requires Inbox.BlobsOwn(s) && Represents(t, s) && FilesKept(t)
    ensures Represents(Cascades.DeleteMessage(t, m).0, Inbox.Deleted(s, m, Files(t)))
  {
    hide Inbox.BlobsOwn, Inbox.DataOf, Cascades.DataFor, Cascades.Integral, Cascades.Unshared, Files;
    if m !in s.messages {
      return;
    }
    InboxIsUnshared(t, s);
    Cascades.DeleteMessageExact(t, m);
    SameData(t, s, m);
    SameResources(t, s, m);
    forall id ensures id in Inbox.Deleted(s, m, Files(t)).messages
                      <==> Cascades.HasMessage(Cascades.WithoutMessages(t, [m]).messages, id) {
      StillMessage(t.messages, m, id);
    }
  }

  lemma SameResources(t: Cascades.Tables, s: Inbox.State, m: nat)
    requires Represents(t, s) && m in s.messages
    ensures var u, v := Cascades.WithoutMessages(t, [m]), Inbox.Deleted(s, m, Files(t));
            && (forall r :: r in u.resources ==> Holds(v, r))
            && (forall id :: id in v.resources ==> Cascades.HasResource(u.resources, id))
  {
    hide Inbox.DataOf, Cascades.DataFor, Files;
    var u, v := Cascades.WithoutMessages(t, [m]), Inbox.Deleted(s, m, Files(t));
    forall r | r in u.resources ensures Holds(v, r) {
      assert Holds(s, r);
    }
    forall id | id in v.resources ensures Cascades.HasResource(u.resources, id) {
      var i :| 0 <= i < |t.resources| && t.resources[i].id == id;
      assert Holds(s, t.resources[i]) && t.resources[i] in u.resources;
    }
  }

  lemma StillMessage(ms: seq<Cascades.Message>, m: nat, id: nat)
    ensures Cascades.HasMessage(Keep(ms, Cascades.MessageNotIn([m])), id) <==> id != m && Cascades.HasMessage(ms, id)
  {
    var kept := Keep(ms, Cascades.MessageNotIn([m]));
    if i :| 0 <= i < |ms| && ms[i].id == id && id != m {
      assert ms[i] in kept;
    }
    if i :| 0 <= i < |kept| && kept[i].id == id {
      assert kept[i] in kept && kept[i] in ms;
    }
  }

  /** The blobs that go are the same in both views. */
  lemma SameData(t: Cascades.Tables, s: Inbox.State, m: nat)
    requires Represents(t, s)
    ensures Cascades.DataFor(t, [m]) == Inbox.DataOf(s.resources, m, Files(t))
  {
    forall b | b in Cascades.DataFor(t, [m]) ensures b in Inbox.DataOf(s.resources, m, Files(t)) {
      var r :| r in t.resources && r.request in [m] && r.data == b;
      assert Holds(s, r);
    }
    forall b | b in Inbox.DataOf(s.resources, m, Files(t)) ensures b in Cascades.DataFor(t, [m]) {
      var id :| id in s.resources && s.resources[id].request == m && s.resources[id].data == b;
      var i :| 0 <= i < |t.resources| && t.resources[i].id == id;
      assert Holds(s, t.resources[i]);
    }
  }
}
