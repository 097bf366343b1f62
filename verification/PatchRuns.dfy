/**
 * Patches over whole runs: whoever changes anything of a stored node was granted "w" on it by the store
 * itself, although the server looks only at tokens (api/graph.go, models/node.go).
 */
module PatchRuns {
  import opened Graph
  import opened Upsert
  import opened Subgraph
  import opened AuthzData
  import opened AuthzStore
  import opened TokenRuns

  /** The owner, sys, or somebody with the node's group where the write bit is set. */
  predicate MayWrite(a: Authz, caller: Caller, grants: set<string>) {
    a.own == Some(caller.uid) || caller.role == "sys" || (OrEmpty(a.sgi) in grants && a.bits.w == Some(true))
  }

  /** An accepted entry is for a stored node that the caller may write. */
  lemma AcceptedEntryIsGranted(c: Crypto, w: World, n: Authz, ad: string, caller: Caller)
    requires Inv(c, w) && Unforged(c.mac, w, ad, caller.key)
    requires UnpackNode(c.mac, n, ad, caller, GrantsOf(w, caller.uid), "w") == Equal
    ensures n.uid in w.store && MayWrite(w.store[n.uid], caller, GrantsOf(w, caller.uid))
  {
    UnpackedNodeMatchesToken(c.mac, n, ad, caller, GrantsOf(w, caller.uid), "w");
    NodeTokenIsStored(c, w, ad, caller.key);
    var t := NodeFromAD(c.mac, ad, caller.key).value;
    StoredRecord(c, w, t);
    GrantedAlike(n, t, w.store[n.uid], caller, GrantsOf(w, caller.uid));
  }

  lemma GrantedAlike(n: Authz, t: Authz, a: Authz, caller: Caller, grants: set<string>)
    requires SameAuthz(n, t) && SameAuthz(t, a) && n.own.Some? && t.own.Some? && t.own == a.own
    requires Grants(n, caller, grants, "w")
    ensures MayWrite(a, caller, grants)
  {
    SameAuthzSameDecision(n, a, caller, grants, "w");
    GrantsSpelledOut(a, caller, grants);
  }

  /** Every entry of an accepted patch is for a node on which the store grants the caller "w". */
  lemma AcceptedPatchIsGranted(c: Crypto, w: World, caller: Caller, entries: seq<Entry>, assign: string -> string,
                               k: nat)
    requires Inv(c, w) && Enabled(c, w, PatchNodes(caller, entries, assign)) && k < |entries|
    requires AcceptedUpTo(c.mac, entries, caller, GrantsOf(w, caller.uid), "w", |entries|)
    ensures entries[k].Some? && entries[k].value.0.uid in w.store
    ensures MayWrite(w.store[entries[k].value.0.uid], caller, GrantsOf(w, caller.uid))
  {
    assert CheckEntry(c.mac, entries[k], caller, GrantsOf(w, caller.uid), "w") == Equal;
    AcceptedEntryIsGranted(c, w, entries[k].value.0, entries[k].value.1, caller);
  }

  /** Writing nodes at other uids leaves a record alone. */
  lemma {:induction false} PutAllElsewhere(store: Store, assign: string -> string, items: seq<Item>, uid: string)
    requires NoneAt(assign, items, uid) && uid in store
    ensures uid in PutAll(store, assign, items) && PutAll(store, assign, items)[uid] == store[uid]
  {
    if items != [] {
      var front := items[..|items| - 1];
      assert forall i :: 0 <= i < |front| ==> front[i] == items[i];
      PutAllElsewhere(store, assign, front, uid);
    }
  }

  /** A record that an accepted patch changes is that of one of its entries. */
  lemma PatchedIsEntry(c: Crypto, w: World, caller: Caller, entries: seq<Entry>, assign: string -> string, uid: string)
      returns (k: nat)
    requires Inv(c, w) && Enabled(c, w, PatchNodes(caller, entries, assign)) && uid in w.store
    requires AcceptedUpTo(c.mac, entries, caller, GrantsOf(w, caller.uid), "w", |entries|)
    requires var after := PutAll(w.store, assign, RenamedItems(c.safe, PatchItems(entries)));
      uid !in after || after[uid] != w.store[uid]
    ensures k < |entries| && entries[k].Some? && entries[k].value.0.uid == uid
  {
    var r := RenamedItems(c.safe, PatchItems(entries));
    if NoneAt(assign, r, uid) { PutAllElsewhere(w.store, assign, r, uid); }
    k :| 0 <= k < |r| && Address(assign, r[k].uid) == uid;
    PatchRepeats(c, w, caller, entries, assign);
    AcceptedAreThere(c.mac, entries, caller, GrantsOf(w, caller.uid), "w");
    assert Repeats(w.store, r[k]);
    AcceptedUidStays(c, w, caller, entries, k);
  }

  /** The uid of an accepted entry is real, so the renaming leaves it alone. */
  lemma AcceptedUidStays(c: Crypto, w: World, caller: Caller, entries: seq<Entry>, k: nat)
    requires Inv(c, w) && k < |entries| && entries[k].Some? && Unforged(c.mac, w, entries[k].value.1, caller.key)
    requires AcceptedUpTo(c.mac, entries, caller, GrantsOf(w, caller.uid), "w", |entries|)
    ensures RenamedItems(c.safe, PatchItems(entries))[k].uid == entries[k].value.0.uid
  {
    assert CheckEntry(c.mac, entries[k], caller, GrantsOf(w, caller.uid), "w") == Equal;
    AcceptedEntryIsGranted(c, w, entries[k].value.0, entries[k].value.1, caller);
    assert WellMade(c, entries[k].value.0.uid, w.store[entries[k].value.0.uid]);
  }

  predicate Unchanged(w: World, v: World, uid: string) {
    uid in w.store && uid in v.store && v.store[uid] == w.store[uid]
  }

  lemma CreationChangesNone(c: Crypto, w: World, caller: Caller, parent: string, decoded: seq<Decoded>,
                            items: seq<Item>, resetSgi: bool, generated: string, assign: string -> string, uid: string)
    requires Sound(c) && Inv(c, w) && uid in w.store
    requires Enabled(c, w, CreateNodes(caller, parent, decoded, items, resetSgi, generated, assign))
    ensures Unchanged(w, After(c, w, CreateNodes(caller, parent, decoded, items, resetSgi, generated, assign)), uid)
  {
    if ToCreate(c, w, caller, parent, decoded, items, resetSgi, generated).Some? {
      var sgi := CreationStores(c, w, caller, parent, decoded, items, resetSgi, generated, assign);
      var created := CreatedRecords(c, assign, items, caller.uid, sgi);
      assert uid in created ==> IsCreated(c, w.store, caller.uid, uid, created[uid]);
    }
  }

  /** Whatever a step changes of a stored node, it is a patch by a caller whom the store grants "w" on it. */
  lemma ChangedNodesAreGranted(c: Crypto, w: World, a: Action, v: World, uid: string)
    requires Sound(c) && Inv(c, w) && StepBy(c, w, a, v) && uid in w.store && !Unchanged(w, v, uid)
    ensures a.PatchNodes? && MayWrite(w.store[uid], a.caller, GrantsOf(w, a.caller.uid))
  {
    match a
    case CreateNodes(caller, parent, decoded, items, resetSgi, generated, assign) =>
      CreationChangesNone(c, w, caller, parent, decoded, items, resetSgi, generated, assign, uid);
    case CreateUserNode(caller, generated, bits, assign) =>
      UserNodeStores(c, w.store, caller, generated, bits, assign);
    case ChangeEdges(change, caller, subjects, incoming, outgoing, assign) =>
      EdgesStoreNothing(c, w, change, caller, subjects, incoming, outgoing, assign);
    case PatchNodes(caller, entries, assign) =>
      var k := PatchedIsEntry(c, w, caller, entries, assign, uid);
      AcceptedPatchIsGranted(c, w, caller, entries, assign, k);
    case _ =>
  }

  // ---------------------------------------------------------------------------- whole runs

  /** A patch by this caller, whom the store grants "w" on the node it changes. */
  ghost predicate GrantedPatch(c: Crypto, w: World, v: World, uid: string, a: Action) {
    && StepBy(c, w, a, v) && !Unchanged(w, v, uid)
    && a.PatchNodes? && uid in w.store && MayWrite(w.store[uid], a.caller, GrantsOf(w, a.caller.uid))
  }

  lemma StepIsGranted(c: Crypto, w: World, v: World, uid: string) returns (a: Action)
    requires Sound(c) && Inv(c, w) && Step(c, w, v) && uid in w.store && !Unchanged(w, v, uid)
    ensures GrantedPatch(c, w, v, uid, a)
  {
    a :| StepBy(c, w, a, v);
    ChangedNodesAreGranted(c, w, a, v, uid);
  }

  lemma StepOfRunIsGranted(c: Crypto, run: seq<World>, i: nat, uid: string) returns (a: Action)
    requires Sound(c) && Behaviour(c, run) && 0 < i < |run| && Inv(c, run[i - 1])
    requires uid in run[i - 1].store && !Unchanged(run[i - 1], run[i], uid)
    ensures GrantedPatch(c, run[i - 1], run[i], uid, a)
  {
    assert StepAt(c, run, i);
    a := StepIsGranted(c, run[i - 1], run[i], uid);
  }

  /** The same, with nothing known but that it is a run. */
  lemma ChangeInRunIsGranted(c: Crypto, run: seq<World>, i: nat, uid: string) returns (a: Action)
    requires Sound(c) && Behaviour(c, run) && 0 < i < |run|
    requires uid in run[i - 1].store && !Unchanged(run[i - 1], run[i], uid)
    ensures GrantedPatch(c, run[i - 1], run[i], uid, a)
  {
    InvAlways(c, run, i - 1);
    a := StepOfRunIsGranted(c, run, i, uid);
  }

  lemma StaysThere(w: World, m: World, v: World, uid: string)
    requires uid in w.store && Unchanged(w, m, uid) && !Unchanged(w, v, uid)
    ensures uid in m.store && !Unchanged(m, v, uid)
  {
  }

  /** A record that is not what it was changed at some step. */
  lemma {:induction false} ChangedAtSomeStep(run: seq<World>, i: nat, j: nat, uid: string) returns (k: nat)
    requires i <= j < |run| && uid in run[i].store && !Unchanged(run[i], run[j], uid)
    ensures i < k <= j && uid in run[k - 1].store && !Unchanged(run[k - 1], run[k], uid)
  {
    if Unchanged(run[i], run[j - 1], uid) {
      k := j;
      StaysThere(run[i], run[j - 1], run[j], uid);
    } else {
      k := ChangedAtSomeStep(run, i, j - 1, uid);
    }
  }

  /**
   * Over every run: if a stored node's record is not what it was, some step in between was a patch that
   * changed it, by a caller whom the store itself granted "w" on the node just then.
   */
  lemma EveryWriteWasGranted(c: Crypto, run: seq<World>, i: nat, j: nat, uid: string) returns (k: nat, a: Action)
    requires Sound(c) && Behaviour(c, run) && i <= j < |run| && uid in run[i].store && !Unchanged(run[i], run[j], uid)
    ensures i < k <= j && GrantedPatch(c, run[k - 1], run[k], uid, a)
  {
    k := ChangedAtSomeStep(run, i, j, uid);
    a := ChangeInRunIsGranted(c, run, k, uid);
  }
}
