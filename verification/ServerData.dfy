/**
 * The groups of stored nodes over whole runs: with ids from `GenerateSgi`, as api/user.go and api/graph.go
 * make them, every group is a server-made id, and what is proved of harmless groups holds of all of them.
 */
module ServerData {
  import opened Graph
  import opened Uid
  import opened Upsert
  import opened Subgraph
  import opened AuthzData
  import opened AuthzStore
  import opened TokenRuns
  import opened ServerIds
  import opened ReadFilter
  import Creation = CreateNodes
  import Edges
  import Pages
  import QueryTheorems
  import Sharing

  /** The id a creation is given comes from the server. */
  ghost predicate IdsFromServer(a: Action) {
    match a
    case CreateNodes(_, _, _, _, _, generated, _) => ServerSgi(generated)
    case CreateUserNode(_, generated, _, _) => ServerSgi(generated)
    case _ => true
  }

  ghost predicate ServerStep(c: Crypto, w: World, v: World) { exists a :: IdsFromServer(a) && StepBy(c, w, a, v) }

  ghost predicate ServerStepAt(c: Crypto, run: seq<World>, i: int)
    requires 0 < i < |run|
  {
    ServerStep(c, run[i - 1], run[i])
  }

  ghost predicate ServerRun(c: Crypto, run: seq<World>) {
    |run| > 0 && Init(run[0]) && forall i :: 0 < i < |run| ==> ServerStepAt(c, run, i)
  }

  predicate HasGroup(a: Authz, s: string) { a.sgi == Some(s) }

  ghost predicate GroupFromServer(a: Authz) { a.sgi.Some? && ServerSgi(a.sgi.value) }

  ghost predicate GroupsFromServer(store: Store) { forall uid :: uid in store ==> GroupFromServer(store[uid]) }

  lemma GroupsKept(s: Store, t: Store)
    requires GroupsFromServer(s) && Keeps(s, t) && t.Keys == s.Keys
    ensures GroupsFromServer(t)
  {
    forall uid | uid in t ensures GroupFromServer(t[uid]) { assert GroupFromServer(s[uid]); }
  }

  lemma GroupsAdded(s: Store, added: Store)
    requires GroupsFromServer(s) && GroupsFromServer(added)
    ensures GroupsFromServer(s + added)
  {
  }

  lemma GroupOfToken(store: Store, t: Authz)
    requires GroupsFromServer(store) && t.uid in store && t.sgi.Some? && SameAuthz(t, store[t.uid])
    ensures ServerSgi(OrEmpty(t.sgi))
  {
    assert GroupFromServer(store[t.uid]);
  }

  /** The group in a parent's token is that of the stored parent. */
  lemma ParentGroup(c: Crypto, w: World, parent: string, caller: Caller)
    requires Inv(c, w) && Unforged(c.mac, w, parent, caller.key) && GroupsFromServer(w.store)
    requires Creation.ParentOf(c.mac, parent, caller, GrantsOf(w, caller.uid)).Some?
    ensures ServerSgi(OrEmpty(Creation.ParentOf(c.mac, parent, caller, GrantsOf(w, caller.uid)).value.sgi))
  {
    Edges.UnpackedProves(c.mac, parent, caller, GrantsOf(w, caller.uid), "o");
    NodeTokenIsStored(c, w, parent, caller.key);
    GroupOfToken(w.store, NodeFromAD(c.mac, parent, caller.key).value);
  }

  lemma CreatedGroups(c: Crypto, assign: string -> string, items: seq<Item>, owner: string, sgi: string)
    requires ServerSgi(sgi)
    ensures GroupsFromServer(CreatedRecords(c, assign, items, owner, sgi))
  {
    var all := CreatedRecords(c, assign, items, owner, sgi);
    forall uid | uid in all ensures GroupFromServer(all[uid]) {
      var i := RecordsAre(assign, RenamedItems(c.safe, OwnedAll(items, owner, sgi)), uid);
    }
  }

  lemma CreationGroups(c: Crypto, w: World, caller: Caller, parent: string, decoded: seq<Decoded>, items: seq<Item>,
                       resetSgi: bool, generated: string, assign: string -> string)
    requires Sound(c) && Inv(c, w) && GroupsFromServer(w.store) && ServerSgi(generated)
    requires Enabled(c, w, CreateNodes(caller, parent, decoded, items, resetSgi, generated, assign))
    ensures GroupsFromServer(
      After(c, w, CreateNodes(caller, parent, decoded, items, resetSgi, generated, assign)).store)
  {
    if ToCreate(c, w, caller, parent, decoded, items, resetSgi, generated).Some? {
      var sgi := CreationStores(c, w, caller, parent, decoded, items, resetSgi, generated, assign);
      ParentGroup(c, w, parent, caller);
      CreatedGroups(c, assign, items, caller.uid, sgi);
      GroupsAdded(w.store, CreatedRecords(c, assign, items, caller.uid, sgi));
    }
  }

  lemma PatchGroups(c: Crypto, w: World, caller: Caller, entries: seq<Entry>, assign: string -> string)
    requires Sound(c) && Inv(c, w) && GroupsFromServer(w.store) && Enabled(c, w, PatchNodes(caller, entries, assign))
    ensures GroupsFromServer(After(c, w, PatchNodes(caller, entries, assign)).store)
  {
    if entries != [] && AcceptedUpTo(c.mac, entries, caller, GrantsOf(w, caller.uid), "w", |entries|) {
      PatchRepeats(c, w, caller, entries, assign);
      PutAllRepeated(w.store, assign, RenamedItems(c.safe, PatchItems(entries)));
      GroupsKept(w.store, PutAll(w.store, assign, RenamedItems(c.safe, PatchItems(entries))));
    }
  }

  lemma UserNodeGroup(c: Crypto, w: World, caller: Caller, generated: string, bits: Bits, assign: string -> string)
    requires GroupsFromServer(w.store) && ServerSgi(generated)
    requires Enabled(c, w, CreateUserNode(caller, generated, bits, assign))
    ensures GroupsFromServer(After(c, w, CreateUserNode(caller, generated, bits, assign)).store)
  {
    UserNodeStores(c, w.store, caller, generated, bits, assign);
  }

  lemma ActionGroups(c: Crypto, w: World, a: Action)
    requires Sound(c) && Inv(c, w) && GroupsFromServer(w.store) && Enabled(c, w, a) && IdsFromServer(a)
    ensures GroupsFromServer(After(c, w, a).store)
  {
    match a
    case CreateNodes(caller, parent, decoded, items, resetSgi, generated, assign) =>
      CreationGroups(c, w, caller, parent, decoded, items, resetSgi, generated, assign);
    case CreateUserNode(caller, generated, bits, assign) => UserNodeGroup(c, w, caller, generated, bits, assign);
    case PatchNodes(caller, entries, assign) => PatchGroups(c, w, caller, entries, assign);
    case ChangeEdges(change, caller, subjects, incoming, outgoing, assign) =>
      EdgesStoreNothing(c, w, change, caller, subjects, incoming, outgoing, assign);
    case _ =>
  }

  lemma ServerStepKeeps(c: Crypto, w: World, v: World)
    requires Sound(c) && ServerStep(c, w, v) && Inv(c, w) && GroupsFromServer(w.store)
    ensures Inv(c, v) && GroupsFromServer(v.store)
  {
    var a :| IdsFromServer(a) && StepBy(c, w, a, v);
    ActionKeeps(c, w, a);
    ActionGroups(c, w, a);
  }

  lemma ServerStepOfRun(c: Crypto, run: seq<World>, i: nat)
    requires Sound(c) && ServerRun(c, run) && 0 < i < |run|
    requires Inv(c, run[i - 1]) && GroupsFromServer(run[i - 1].store)
    ensures Inv(c, run[i]) && GroupsFromServer(run[i].store)
  {
    assert ServerStepAt(c, run, i);
    ServerStepKeeps(c, run[i - 1], run[i]);
  }

  /** Over every run whose new ids are server-made, every stored node's group is one of them. */
  lemma {:induction false} GroupsAreServerMade(c: Crypto, run: seq<World>, i: nat)
    requires Sound(c) && ServerRun(c, run) && i < |run|
    ensures Inv(c, run[i]) && GroupsFromServer(run[i].store)
  {
    if i > 0 {
      GroupsAreServerMade(c, run, i - 1);
      ServerStepOfRun(c, run, i);
    }
  }

  // ----------------------------------------------------------- what that is worth to a query

  /** Every group in the list is that of some stored node. */
  ghost predicate GroupsOf(store: Store, allowedSgis: seq<string>) {
    forall s :: s in allowedSgis ==> exists uid :: uid in store && HasGroup(store[uid], s)
  }

  lemma StoredGroupIsServerMade(store: Store, allowedSgis: seq<string>, s: string)
    requires GroupsFromServer(store) && GroupsOf(store, allowedSgis) && s in allowedSgis
    ensures ServerSgi(s)
  {
    var uid :| uid in store && HasGroup(store[uid], s);
    assert GroupFromServer(store[uid]);
  }

  /**
   * Whatever has happened since the server started, the groups of its nodes pass through everything: no
   * marker in the query text, nothing lost in a comma list, none dropped from the read filter, and every
   * node can be packed into a token.
   */
  lemma StoredGroupsAreHarmless(c: Crypto, run: seq<World>, i: nat, et: EdgeType, uad: Option<Caller>,
                                allowedSgis: seq<string>)
    requires Sound(c) && ServerRun(c, run) && i < |run| && GroupsOf(run[i].store, allowedSgis)
    ensures QueryTheorems.GroupsInnocent(et, uad, allowedSgis)
    ensures Sharing.Pieces(Members(allowedSgis)) == Members(allowedSgis)
    ensures Members(SafeSgis(allowedSgis)) == Members(allowedSgis)
    ensures forall uid :: uid in run[i].store ==> Packable(run[i].store[uid])
  {
    GroupsAreServerMade(c, run, i);
    AllHarmless(run[i].store, allowedSgis);
    Sharing.PiecesOfCommaFree(Members(allowedSgis));
    forall uid | uid in run[i].store ensures Packable(run[i].store[uid]) {
      assert WellMade(c, uid, run[i].store[uid]);
    }
  }

  lemma AllHarmless(store: Store, allowedSgis: seq<string>)
    requires GroupsFromServer(store) && GroupsOf(store, allowedSgis)
    ensures forall s :: s in allowedSgis ==> SgiChars(s) && ',' !in s && s != "" && QueryTheorems.Innocent(s)
  {
    forall s | s in allowedSgis ensures SgiChars(s) && ',' !in s && s != "" && QueryTheorems.Innocent(s) {
      StoredGroupIsServerMade(store, allowedSgis, s);
      ServerSgiIsHarmless(s);
    }
  }

  /** For a caller whose uid is Dgraph's own, the query's read filter is the response's, on every node. */
  lemma ReadFiltersAgree(c: Crypto, run: seq<World>, i: nat, caller: Caller, allowedSgis: seq<string>, n: Node)
    requires Sound(c) && ServerRun(c, run) && i < |run| && GroupsOf(run[i].store, allowedSgis)
    requires !caller.IsAdmin() && Canonical(caller.uid)
    ensures InQueryReadable(caller, allowedSgis, n) <==> MayRead(caller, Members(allowedSgis), n)
    ensures Pages.CleanCaller(caller, allowedSgis, Members(allowedSgis))
  {
    GroupsAreServerMade(c, run, i);
    AllHarmless(run[i].store, allowedSgis);
    InQueryFilterEqualsResponseFilter(caller, allowedSgis);
  }
}
