/**
 * Edges over whole runs: whoever adds or removes an edge was granted both of its ends by the store itself,
 * although the server looks only at tokens (api/graph.go, models/node.go, services/db.go).
 */
module EdgeRuns {
  import opened Graph
  import opened Base64Url
  import opened Upsert
  import opened Subgraph
  import opened AuthzData
  import opened AuthzStore
  import opened TokenRuns
  import Creation = CreateNodes
  import Edges

  /** A user's token anywhere among a patch's entries: the patch is not accepted, and nothing is written. */
  lemma UserTokenChangesNothing(c: Crypto, w: World, caller: Caller, entries: seq<Entry>, k: nat, uid: string,
                                role: string, assign: string -> string)
    requires k < |entries| && entries[k].Some?
    requires CarriesUser(c.mac, uid, role, entries[k].value.1, caller.key)
    ensures After(c, w, PatchNodes(caller, entries, assign)) == w
  {
    CarriedUser(c.mac, uid, role, entries[k].value.1, caller.key);
    assert CheckEntry(c.mac, entries[k], caller, GrantsOf(w, caller.uid), "w") != Equal;
  }

  /** Such patches are steps of every world: the signed text of any user will do. */
  lemma UserTokenIsEnabled(c: Crypto, w: World, caller: Caller, n: Authz, uid: string, role: string,
                           assign: string -> string)
    requires DotFree(uid) && DotFree(role) && ByteString(UserText(uid, role))
    ensures var ad := MessageAndMAC(c.mac, UserText(uid, role), caller.key);
      && CarriesUser(c.mac, uid, role, ad, caller.key)
      && Enabled(c, w, PatchNodes(caller, [Some((n, ad))], assign))
  {
    VerifyOwn(c.mac, UserText(uid, role), caller.key);
    assert CarriesUser(c.mac, uid, role, MessageAndMAC(c.mac, UserText(uid, role), caller.key), caller.key);
  }

  // ------------------------------------------------------------------ what is granted

  /** The store lets the caller put edges out of the node, or the node is a new one of theirs. */
  predicate SourceGranted(w: World, v: World, caller: Caller, uid: string) {
    || (uid in w.store && Edges.MaySource(w.store[uid], caller, GrantsOf(w, caller.uid)))
    || CreatedBy(w, v, caller, uid)
  }

  predicate TargetGranted(w: World, v: World, caller: Caller, uid: string) {
    || (uid in w.store && Edges.MayTarget(w.store[uid], caller, GrantsOf(w, caller.uid)))
    || CreatedBy(w, v, caller, uid)
  }

  predicate CreatedBy(w: World, v: World, caller: Caller, uid: string) {
    uid !in w.store && uid in v.store && v.store[uid].own == Some(caller.uid)
  }

  predicate EdgeGranted(w: World, v: World, caller: Caller, e: Edges.Edge) {
    SourceGranted(w, v, caller, e.0) && TargetGranted(w, v, caller, e.1)
  }

  /** The decision on the fields in a node's token is that on the stored record. */
  lemma TokenSource(c: Crypto, w: World, ad: string, caller: Caller, grants: set<string>, uid: string)
    requires Inv(c, w) && Unforged(c.mac, w, ad, caller.key) && Edges.ProvesSource(c.mac, ad, caller, grants, uid)
    ensures uid in w.store && Edges.MaySource(w.store[uid], caller, grants)
  {
    NodeTokenIsStored(c, w, ad, caller.key);
    StoredRecord(c, w, NodeFromAD(c.mac, ad, caller.key).value);
    SameBits(NodeFromAD(c.mac, ad, caller.key).value.bits, w.store[uid].bits);
  }

  lemma TokenTarget(c: Crypto, w: World, ad: string, caller: Caller, grants: set<string>, uid: string)
    requires Inv(c, w) && Unforged(c.mac, w, ad, caller.key) && Edges.ProvesTarget(c.mac, ad, caller, grants, uid)
    ensures uid in w.store && Edges.MayTarget(w.store[uid], caller, grants)
  {
    NodeTokenIsStored(c, w, ad, caller.key);
    StoredRecord(c, w, NodeFromAD(c.mac, ad, caller.key).value);
    SameBits(NodeFromAD(c.mac, ad, caller.key).value.bits, w.store[uid].bits);
  }

  lemma SameBits(b: Bits, d: Bits)
    requires NoNulls(b) == NoNulls(d)
    ensures (IsSet(b.o) <==> IsSet(d.o)) && (IsSet(b.i) <==> IsSet(d.i))
  {
    assert NoNulls(b).o == NoNulls(d).o && NoNulls(b).i == NoNulls(d).i;
  }

  lemma UnforgedJoin(mac: Mac, w: World, a: seq<string>, b: seq<string>, key: string)
    requires AllUnforged(mac, w, a, key) && AllUnforged(mac, w, b, key)
    ensures AllUnforged(mac, w, a + b, key)
  {
  }

  // --------------------------------------------------------------------- edge requests

  /** The edges that an edge request adds or removes are wanted ones. */
  lemma ChangedIsWanted(edges: set<Edges.Edge>, change: Edges.Change, s: seq<string>, i: seq<string>, o: seq<string>,
                        e: Edges.Edge)
    requires e in Edges.Updated(edges, change, s, i, o) <==> e !in edges
    ensures e in Edges.Wanted(s, i, o)
  {
  }

  lemma EdgeRequestGranted(c: Crypto, w: World, v: World, change: Edges.Change, caller: Caller, subjects: seq<string>,
                           incoming: seq<string>, outgoing: seq<string>, assign: string -> string, e: Edges.Edge)
    requires Inv(c, w) && StepBy(c, w, ChangeEdges(change, caller, subjects, incoming, outgoing, assign), v)
    requires e in v.edges <==> e !in w.edges
    ensures EdgeGranted(w, v, caller, e)
  {
    var grants := GrantsOf(w, caller.uid);
    assert Edges.Allowed(c.mac, caller, grants, subjects, incoming, outgoing);
    var perms := Edges.SubjectPermissions(|incoming|, |outgoing|);
    var s, i, o := Proven(c.mac, subjects, caller, grants, perms), Proven(c.mac, incoming, caller, grants, "o"),
      Proven(c.mac, outgoing, caller, grants, "i");
    ChangedIsWanted(w.edges, change, s, i, o, e);
    Edges.EveryEdgeIsChecked(c.mac, caller, grants, subjects, incoming, outgoing, s, i, o, e);
    UnforgedJoin(c.mac, w, incoming, subjects, caller.key);
    UnforgedJoin(c.mac, w, subjects, outgoing, caller.key);
    SomeSource(c, w, incoming + subjects, caller, e.0);
    SomeTarget(c, w, subjects + outgoing, caller, e.1);
  }

  lemma SomeSource(c: Crypto, w: World, ads: seq<string>, caller: Caller, uid: string)
    requires Inv(c, w) && AllUnforged(c.mac, w, ads, caller.key)
    requires Edges.SourceProven(c.mac, ads, caller, GrantsOf(w, caller.uid), uid)
    ensures uid in w.store && Edges.MaySource(w.store[uid], caller, GrantsOf(w, caller.uid))
  {
    var k :| 0 <= k < |ads| && Edges.ProvesSource(c.mac, ads[k], caller, GrantsOf(w, caller.uid), uid);
    TokenSource(c, w, ads[k], caller, GrantsOf(w, caller.uid), uid);
  }

  lemma SomeTarget(c: Crypto, w: World, ads: seq<string>, caller: Caller, uid: string)
    requires Inv(c, w) && AllUnforged(c.mac, w, ads, caller.key)
    requires Edges.TargetProven(c.mac, ads, caller, GrantsOf(w, caller.uid), uid)
    ensures uid in w.store && Edges.MayTarget(w.store[uid], caller, GrantsOf(w, caller.uid))
  {
    var k :| 0 <= k < |ads| && Edges.ProvesTarget(c.mac, ads[k], caller, GrantsOf(w, caller.uid), uid);
    TokenTarget(c, w, ads[k], caller, GrantsOf(w, caller.uid), uid);
  }

  // ------------------------------------------------------------------------- creations

  /** The new node ends up at its address, owned by the caller. */
  lemma NewNodeCreated(c: Crypto, w: World, v: World, caller: Caller, items: seq<Item>, assign: string -> string,
                       parent: string, sgi: string, k: nat)
    requires items != [] && AllNamed(c, items) && DistinctTemps(c.safe, WithParent(items, parent, caller.uid, sgi))
    requires Separates(c.safe, items) && Mints(c, w.store, assign, NewNames(c.md5, items))
    requires v.store == w.store + CreatedRecords(c, assign, items, caller.uid, sgi) && k < |items|
    ensures CreatedBy(w, v, caller, Address(assign, c.safe(items[k].uid)))
  {
    var r := RenamedItems(c.safe, OwnedAll(items, caller.uid, sgi));
    NewNodesAreNew(c, w.store, assign, items, parent, caller.uid, sgi);
    RecordOf(assign, r, k);
    assert r[k].uid == c.safe(items[k].uid) && r[k].own == Some(caller.uid);
  }

  /** An edge of a new node leads to a new node. */
  lemma TargetIsNode(c: Crypto, decoded: seq<Decoded>, items: seq<Item>, parent: string, owner: string, sgi: string,
                     i: nat, j: nat)
      returns (k: nat)
    requires Sound(c) && Creation.Valid(decoded) && DecodedAs(decoded, items) && items != [] && Real(c, parent)
    requires Closed(c.safe, WithParent(items, parent, owner, sgi)) && i < |items| && j < |items[i].targets|
    ensures k < |items| && items[k].uid == items[i].targets[j]
  {
    var all := WithParent(items, parent, owner, sgi);
    var t := items[i].targets[j];
    assert decoded[i] != Null && SameNode(decoded[i], items[i]);
    assert CheckUidsArePlaceholders(decoded[i].edges);
    assert NamedByDigest(c, t);
    assert all[i].targets[j] == t && t in ItemUids(all);
    k :| 0 <= k < |all| && ItemUids(all)[k] == t;
    assert all[k].uid == t;
  }

  lemma {:induction false} UnlinkedAreUids(uids: seq<string>, linked: set<string>, u: string)
    requires u in Unlinked(uids, linked)
    ensures u in uids
  {
    if uids != [] && u in Unlinked(uids[..|uids| - 1], linked) { UnlinkedAreUids(uids[..|uids| - 1], linked, u); }
  }

  /** The parent's edges lead to new nodes. */
  lemma RootAt(items: seq<Item>, j: nat) returns (k: nat)
    requires items != [] && j < |Roots(items)|
    ensures k < |items| && items[k].uid == Roots(items)[j]
  {
    if Unlinked(ItemUids(items), Linked(items)) == [] {
      k := 0;
    } else {
      UnlinkedAreUids(ItemUids(items), Linked(items), Roots(items)[j]);
      k :| 0 <= k < |items| && ItemUids(items)[k] == Roots(items)[j];
    }
  }

  /** An edge that a creation writes: from a new node or the parent, to a new node. */
  lemma WrittenEdge(c: Crypto, decoded: seq<Decoded>, items: seq<Item>, parent: string, owner: string, sgi: string,
                    assign: string -> string, e: Edges.Edge) returns (fromParent: bool, i: nat, k: nat)
    requires Sound(c) && Creation.Valid(decoded) && DecodedAs(decoded, items) && items != [] && Real(c, parent)
    requires Closed(c.safe, WithParent(items, parent, owner, sgi))
    requires e in Written(assign, RenamedItems(c.safe, WithParent(items, parent, owner, sgi)))
    ensures k < |items| && e.1 == Address(assign, c.safe(items[k].uid))
    ensures if fromParent then e.0 == parent else i < |items| && e.0 == Address(assign, c.safe(items[i].uid))
  {
    var all := WithParent(items, parent, owner, sgi);
    var r := RenamedItems(c.safe, all);
    var j: nat;
    i, j :| i < |r| && j < |r[i].targets| && e == (Address(assign, r[i].uid), Address(assign, r[i].targets[j]));
    fromParent := i == |items|;
    if fromParent {
      k := RootAt(items, j);
      assert r[i] == Renamed(c.safe, Item(parent, None, None, NO_BITS, Roots(items)));
    } else {
      k := TargetIsNode(c, decoded, items, parent, owner, sgi, i, j);
      assert r[i] == Renamed(c.safe, Owned(items[i], owner, sgi));
    }
  }

  lemma CreationGranted(c: Crypto, w: World, v: World, caller: Caller, parent: string, decoded: seq<Decoded>,
                        items: seq<Item>, resetSgi: bool, generated: string, assign: string -> string, e: Edges.Edge)
    requires Sound(c) && Inv(c, w)
    requires StepBy(c, w, CreateNodes(caller, parent, decoded, items, resetSgi, generated, assign), v)
    requires e in v.edges <==> e !in w.edges
    ensures EdgeGranted(w, v, caller, e)
  {
    var grants := GrantsOf(w, caller.uid);
    assert ToCreate(c, w, caller, parent, decoded, items, resetSgi, generated).Some?;
    var p := Creation.ParentOf(c.mac, parent, caller, grants).value;
    var sgi := Creation.GroupFor(p, resetSgi, generated);
    ProvenIsStored(c, w, parent, caller, grants, "o");
    NodesAreNamed(c, decoded, items);
    CreatedExactly(c, w.store, assign, items, p.uid, caller.uid, sgi);
    var fromParent, i, k := WrittenEdge(c, decoded, items, p.uid, caller.uid, sgi, assign, e);
    NewNodeCreated(c, w, v, caller, items, assign, p.uid, sgi, k);
    if fromParent {
      Edges.LettersProve(w.store[p.uid], caller, grants);
    } else {
      NewNodeCreated(c, w, v, caller, items, assign, p.uid, sgi, i);
    }
  }

  // ---------------------------------------------------------------------------- whole runs

  /** The edge appears or goes, and the store grants the caller both ends. */
  predicate GrantedChange(w: World, v: World, caller: Caller, e: Edges.Edge) {
    (e in v.edges <==> e !in w.edges) && EdgeGranted(w, v, caller, e)
  }

  lemma PatchKeepsEdges(c: Crypto, w: World, caller: Caller, entries: seq<Entry>, assign: string -> string)
    ensures After(c, w, PatchNodes(caller, entries, assign)).edges == w.edges
  {
    if entries != [] && AcceptedUpTo(c.mac, entries, caller, GrantsOf(w, caller.uid), "w", |entries|) {
      AcceptedAreThere(c.mac, entries, caller, GrantsOf(w, caller.uid), "w");
      PatchLinksNothing(c, entries, assign);
    }
  }

  /** Whatever edge a step adds or removes, it does for a caller whom the store grants both ends. */
  lemma ChangedEdgesAreGranted(c: Crypto, w: World, a: Action, v: World, e: Edges.Edge) returns (caller: Caller)
    requires Sound(c) && Inv(c, w) && StepBy(c, w, a, v) && (e in v.edges <==> e !in w.edges)
    ensures (a.CreateNodes? || a.ChangeEdges?) && caller == a.caller
    ensures GrantedChange(w, v, caller, e)
  {
    match a
    case CreateNodes(cl, parent, decoded, items, resetSgi, generated, assign) =>
      caller := cl;
      CreationGranted(c, w, v, caller, parent, decoded, items, resetSgi, generated, assign, e);
    case ChangeEdges(change, cl, subjects, incoming, outgoing, assign) =>
      caller := cl;
      EdgeRequestGranted(c, w, v, change, caller, subjects, incoming, outgoing, assign, e);
    case PatchNodes(cl, entries, assign) => PatchKeepsEdges(c, w, cl, entries, assign);
    case _ =>
  }

  /** Every edge in the database got there by a step of someone whom the store granted both of its ends. */
  lemma {:induction false} EveryEdgeWasGranted(c: Crypto, run: seq<World>, j: nat, e: Edges.Edge)
      returns (i: nat, caller: Caller)
    requires Sound(c) && Behaviour(c, run) && j < |run| && e in run[j].edges
    ensures 0 < i <= j && e !in run[i - 1].edges && GrantedChange(run[i - 1], run[i], caller, e)
  {
    if e in run[j - 1].edges {
      i, caller := EveryEdgeWasGranted(c, run, j - 1, e);
    } else {
      i := j;
      InvAlways(c, run, j - 1);
      caller := StepChanges(c, run, j, e);
    }
  }

  lemma StepChanges(c: Crypto, run: seq<World>, j: nat, e: Edges.Edge) returns (caller: Caller)
    requires Sound(c) && Behaviour(c, run) && 0 < j < |run| && Inv(c, run[j - 1])
    requires e in run[j].edges <==> e !in run[j - 1].edges
    ensures GrantedChange(run[j - 1], run[j], caller, e)
  {
    assert StepAt(c, run, j);
    caller := ChangeIsGranted(c, run[j - 1], run[j], e);
  }

  lemma ChangeIsGranted(c: Crypto, w: World, v: World, e: Edges.Edge) returns (caller: Caller)
    requires Sound(c) && Inv(c, w) && Step(c, w, v) && (e in v.edges <==> e !in w.edges)
    ensures GrantedChange(w, v, caller, e)
  {
    var a :| StepBy(c, w, a, v);
    caller := ChangedEdgesAreGranted(c, w, a, v, e);
  }
}
