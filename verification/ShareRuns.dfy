/**
 * Share edges and allowlists over runs of share requests (api/user.go). A share request revokes groups, not
 * nodes, so the two can come apart; these are the exact conditions under which they do not.
 */
module ShareRuns {
  import opened Graph
  import opened AuthzData
  import opened Session
  import opened Sharing
  import opened ShareRequest
  import opened Upsert
  import Edges

  /** Groups are comma-free and not empty, as server-made ones are. */
  predicate CleanGroup(a: Authz) { a.sgi.Some? ==> a.sgi.value != "" && ',' !in a.sgi.value }

  ghost predicate CleanGroups(store: Store) { forall id :: id in store ==> CleanGroup(store[id]) }

  /** The request speaks of the stored node as it is, and that does not change; a null read bit is as good as false. */
  predicate Says(store: Store, n: Authz) {
    && n.uid in store && n.own == store[n.uid].own && n.sgi == store[n.uid].sgi
    && IsSet(n.bits.r) == IsSet(store[n.uid].bits.r)
  }

  ghost predicate AllSay(store: Store, nodes: seq<Authz>) { forall k :: 0 <= k < |nodes| ==> Says(store, nodes[k]) }

  /** The share edges, from users to nodes, and the session manager. */
  datatype World = World(shared: set<Edges.Edge>, sessions: State)

  /** Completed requests: the database answers, and nobody's null read bit is looked at. */
  datatype Action =
    | Share(change: Edges.Change, users: seq<string>, nodes: seq<Authz>)
    | ListShared(uid: string, nodes: seq<Authz>)

  /** "PUT share", "PATCH share" and "POST nodes" with `shared`, as their methods promise. */
  ghost predicate StepBy(store: Store, w: World, a: Action, v: World) {
    && AllSay(store, a.nodes)
    && match a
       case Share(change, users, nodes) =>
         SharedWith(users, nodes, change, true, w.shared, v.shared, w.sessions, v.sessions, ShareRequest.Shared,
                    |users|)
       case ListShared(uid, nodes) =>
         && v.shared == w.shared && (forall k :: 0 <= k < |nodes| ==> (uid, nodes[k].uid) in w.shared)
         && OnlyListChanged(w.sessions, v.sessions, uid, Updated(w.sessions, true, uid, Pieces(SharedSgis(nodes, uid))))
  }

  // --------------------------------------------------------------------------- agreement

  predicate Listed(w: World, u: string, g: string) { g in Of(w.sessions.allow, u) }

  /** The user does not own the stored node, which is readable and in this group. */
  predicate ReadableIn(store: Store, u: string, g: string, id: string) {
    id in store && store[id].own != Some(u) && store[id].bits.r == Some(true) && store[id].sgi == Some(g)
  }

  predicate WarrantedBy(store: Store, w: World, u: string, g: string, id: string) {
    (u, id) in w.shared && ReadableIn(store, u, g, id)
  }

  /** Some readable node of the group is shared with the user. */
  ghost predicate Warranted(store: Store, w: World, u: string, g: string) {
    exists id :: WarrantedBy(store, w, u, g, id)
  }

  /** No user's list holds a group that no node shared with them is in. */
  ghost predicate NeverMore(store: Store, w: World) {
    forall u, g :: u != "" && Listed(w, u, g) ==> Warranted(store, w, u, g)
  }

  /** Every list holds exactly the groups of the readable nodes shared with its user. */
  ghost predicate Agree(store: Store, w: World) {
    forall u, g :: u != "" ==> (Listed(w, u, g) <==> Warranted(store, w, u, g))
  }

  // -------------------------------------------------------------------- one request's groups

  /** The request names a readable node of the group that the user does not own. */
  ghost predicate NamesGroup(nodes: seq<Authz>, u: string, g: string) {
    exists k :: 0 <= k < |nodes| && NamesGroupAt(nodes, u, g, k)
  }

  predicate NamesGroupAt(nodes: seq<Authz>, u: string, g: string, k: nat)
    requires k < |nodes|
  {
    Sharing.Shared(nodes[k], u) && nodes[k].sgi == Some(g)
  }

  lemma GroupsNamed(store: Store, nodes: seq<Authz>, u: string, g: string)
    requires CleanGroups(store) && AllSay(store, nodes)
    ensures g in Pieces(SharedSgis(nodes, u)) <==> NamesGroup(nodes, u, g)
  {
    var groups := SharedSgis(nodes, u);
    forall x | x in groups ensures ',' !in x && x != "" {
      var k :| 0 <= k < |nodes| && Sharing.Shared(nodes[k], u) && nodes[k].sgi.value == x;
      assert Says(store, nodes[k]) && CleanGroup(store[nodes[k].uid]);
    }
    PiecesOfCommaFree(groups);
    if g in groups {
      var k :| 0 <= k < |nodes| && Sharing.Shared(nodes[k], u) && nodes[k].sgi.value == g;
      assert NamesGroupAt(nodes, u, g, k);
    }
    if NamesGroup(nodes, u, g) {
      var k :| 0 <= k < |nodes| && NamesGroupAt(nodes, u, g, k);
      assert nodes[k].sgi.value in groups;
    }
  }

  lemma NamedNode(store: Store, nodes: seq<Authz>, u: string, g: string, k: nat)
    requires AllSay(store, nodes) && k < |nodes|
    ensures NamesGroupAt(nodes, u, g, k) <==> ReadableIn(store, u, g, nodes[k].uid)
  {
    assert Says(store, nodes[k]);
  }

  // ---------------------------------------------------------------------------- the steps

  /** A share request changes the list of each of its users by the groups it names. */
  lemma ListAfter(store: Store, w: World, a: Action, v: World, u: string, g: string)
    requires CleanGroups(store) && a.Share? && StepBy(store, w, a, v) && u != ""
    ensures Listed(v, u, g)
       <==> if u !in a.users then Listed(w, u, g)
            else if a.change == Edges.Add then Listed(w, u, g) || NamesGroup(a.nodes, u, g)
            else Listed(w, u, g) && !NamesGroup(a.nodes, u, g)
  {
    assert a.users[..|a.users|] == a.users;
    GroupsNamed(store, a.nodes, u, g);
  }

  lemma EdgeAfter(store: Store, w: World, a: Action, v: World, u: string, id: string)
    requires a.Share? && StepBy(store, w, a, v)
    ensures (u, id) in v.shared
       <==> if !(u in a.users && id in UidsOfNodes(a.nodes)) then (u, id) in w.shared else a.change == Edges.Add
  {
    assert (u, id) in Edges.Cross(a.users, UidsOfNodes(a.nodes)) <==> u in a.users && id in UidsOfNodes(a.nodes);
  }

  /** After sharing: the groups warranted before, and for its users those that the request names. */
  lemma WarrantedAfterSharing(store: Store, w: World, a: Action, v: World, u: string, g: string)
    requires a.Share? && a.change == Edges.Add && StepBy(store, w, a, v)
    ensures Warranted(store, v, u, g) <==> Warranted(store, w, u, g) || (u in a.users && NamesGroup(a.nodes, u, g))
  {
    if Warranted(store, v, u, g) {
      var id :| WarrantedBy(store, v, u, g, id);
      EdgeAfter(store, w, a, v, u, id);
      if (u, id) in w.shared {
        assert WarrantedBy(store, w, u, g, id);
      } else {
        var k :| 0 <= k < |a.nodes| && UidsOfNodes(a.nodes)[k] == id;
        NamedNode(store, a.nodes, u, g, k);
      }
    }
    if Warranted(store, w, u, g) {
      var id :| WarrantedBy(store, w, u, g, id);
      EdgeAfter(store, w, a, v, u, id);
      assert WarrantedBy(store, v, u, g, id);
    }
    if u in a.users && NamesGroup(a.nodes, u, g) {
      var k :| 0 <= k < |a.nodes| && NamesGroupAt(a.nodes, u, g, k);
      NamedNode(store, a.nodes, u, g, k);
      assert UidsOfNodes(a.nodes)[k] == a.nodes[k].uid;
      EdgeAfter(store, w, a, v, u, a.nodes[k].uid);
      assert WarrantedBy(store, v, u, g, a.nodes[k].uid);
    }
  }

  /** The user keeps a node of the group that the request does not name. */
  predicate KeepsOther(store: Store, w: World, users: seq<string>, nodes: seq<Authz>, u: string, g: string,
                       id: string)
  {
    u in users && WarrantedBy(store, w, u, g, id) && id !in UidsOfNodes(nodes)
  }

  /** After un-sharing: the groups of the nodes that are still shared. */
  lemma WarrantedAfterUnsharing(store: Store, w: World, a: Action, v: World, u: string, g: string)
    requires a.Share? && a.change == Edges.Delete && StepBy(store, w, a, v)
    ensures u !in a.users ==> (Warranted(store, v, u, g) <==> Warranted(store, w, u, g))
    ensures u in a.users ==>
      (Warranted(store, v, u, g) <==> exists id :: KeepsOther(store, w, a.users, a.nodes, u, g, id))
  {
    forall id ensures WarrantedBy(store, v, u, g, id)
                 <==> WarrantedBy(store, w, u, g, id) && !(u in a.users && id in UidsOfNodes(a.nodes))
    {
      EdgeAfter(store, w, a, v, u, id);
    }
    if u in a.users {
      forall id ensures WarrantedBy(store, v, u, g, id) <==> KeepsOther(store, w, a.users, a.nodes, u, g, id) {}
    }
  }

  lemma UnnamedIsKept(store: Store, w: World, users: seq<string>, nodes: seq<Authz>, u: string, g: string, id: string)
    requires AllSay(store, nodes) && u in users && WarrantedBy(store, w, u, g, id) && !NamesGroup(nodes, u, g)
    ensures KeepsOther(store, w, users, nodes, u, g, id)
  {
    if id in UidsOfNodes(nodes) {
      var k :| 0 <= k < |nodes| && UidsOfNodes(nodes)[k] == id;
      NamedNode(store, nodes, u, g, k);
    }
  }

  // ------------------------------------------------------------------ what requests keep

  lemma SharingAgrees(store: Store, w: World, a: Action, v: World)
    requires CleanGroups(store) && a.Share? && a.change == Edges.Add && StepBy(store, w, a, v)
    ensures Agree(store, w) ==> Agree(store, v)
    ensures NeverMore(store, w) ==> NeverMore(store, v)
  {
    forall u, g | u != ""
      ensures Listed(v, u, g) <==> Listed(w, u, g) || (u in a.users && NamesGroup(a.nodes, u, g))
      ensures Warranted(store, v, u, g) <==> Warranted(store, w, u, g) || (u in a.users && NamesGroup(a.nodes, u, g))
    {
      ListAfter(store, w, a, v, u, g);
      WarrantedAfterSharing(store, w, a, v, u, g);
    }
  }

  /** Some user keeps a node that the request does not name, in a group that it does. */
  ghost predicate LeavesOther(store: Store, w: World, users: seq<string>, nodes: seq<Authz>) {
    exists u, g, id :: u != "" && NamesGroup(nodes, u, g) && KeepsOther(store, w, users, nodes, u, g, id)
  }

  /** What un-sharing does to one user's list and the groups of what stays shared with them. */
  lemma UnsharedList(store: Store, w: World, a: Action, v: World, u: string, g: string)
    requires CleanGroups(store) && a.Share? && a.change == Edges.Delete && StepBy(store, w, a, v) && u != ""
    requires Listed(w, u, g) ==> Warranted(store, w, u, g)
    ensures Listed(v, u, g) ==> Warranted(store, v, u, g)
    ensures (Listed(w, u, g) <==> Warranted(store, w, u, g)) ==>
      (Warranted(store, v, u, g) && !Listed(v, u, g)
       <==> NamesGroup(a.nodes, u, g) && exists id :: KeepsOther(store, w, a.users, a.nodes, u, g, id))
  {
    ListAfter(store, w, a, v, u, g);
    WarrantedAfterUnsharing(store, w, a, v, u, g);
    if u in a.users && Warranted(store, w, u, g) && !NamesGroup(a.nodes, u, g) {
      var id :| WarrantedBy(store, w, u, g, id);
      UnnamedIsKept(store, w, a.users, a.nodes, u, g, id);
    }
  }

  /**
   * Un-sharing keeps lists and edges in agreement exactly if it leaves nobody another node of a group it
   * names: the group is revoked with the node.
   */
  lemma UnsharingAgreesExactly(store: Store, w: World, a: Action, v: World)
    requires CleanGroups(store) && a.Share? && a.change == Edges.Delete && StepBy(store, w, a, v) && Agree(store, w)
    ensures Agree(store, v) <==> !LeavesOther(store, w, a.users, a.nodes)
  {
    forall u, g | u != ""
      ensures Listed(v, u, g) ==> Warranted(store, v, u, g)
      ensures Warranted(store, v, u, g) && !Listed(v, u, g)
         <==> NamesGroup(a.nodes, u, g) && exists id :: KeepsOther(store, w, a.users, a.nodes, u, g, id)
    {
      UnsharedList(store, w, a, v, u, g);
    }
  }

  lemma UnsharingNeverMore(store: Store, w: World, a: Action, v: World)
    requires CleanGroups(store) && a.Share? && a.change == Edges.Delete && StepBy(store, w, a, v) && NeverMore(store, w)
    ensures NeverMore(store, v)
  {
    forall u, g | u != "" && Listed(v, u, g) ensures Warranted(store, v, u, g) { UnsharedList(store, w, a, v, u, g); }
  }

  lemma ListedAfterListing(store: Store, w: World, a: Action, v: World, u: string, g: string)
    requires CleanGroups(store) && a.ListShared? && StepBy(store, w, a, v) && u != ""
    ensures Listed(v, u, g) <==> Listed(w, u, g) || (u == a.uid && NamesGroup(a.nodes, u, g))
    ensures u == a.uid && NamesGroup(a.nodes, u, g) ==> Warranted(store, w, u, g)
    ensures Warranted(store, v, u, g) <==> Warranted(store, w, u, g)
  {
    GroupsNamed(store, a.nodes, u, g);
    if u == a.uid && NamesGroup(a.nodes, u, g) {
      var k :| 0 <= k < |a.nodes| && NamesGroupAt(a.nodes, u, g, k);
      NamedNode(store, a.nodes, u, g, k);
      assert WarrantedBy(store, w, u, g, a.nodes[k].uid);
    }
    forall id ensures WarrantedBy(store, v, u, g, id) <==> WarrantedBy(store, w, u, g, id) {}
  }

  lemma ListingAgrees(store: Store, w: World, a: Action, v: World)
    requires CleanGroups(store) && a.ListShared? && StepBy(store, w, a, v)
    ensures Agree(store, w) ==> Agree(store, v)
    ensures NeverMore(store, w) ==> NeverMore(store, v)
  {
    forall u, g | u != ""
      ensures Listed(v, u, g) <==> Listed(w, u, g) || (u == a.uid && NamesGroup(a.nodes, u, g))
      ensures u == a.uid && NamesGroup(a.nodes, u, g) ==> Warranted(store, w, u, g)
      ensures Warranted(store, v, u, g) <==> Warranted(store, w, u, g)
    {
      ListedAfterListing(store, w, a, v, u, g);
    }
  }

  /** All that is shared with a user is listed. */
  ghost predicate ListsAll(store: Store, w: World, uid: string, nodes: seq<Authz>) {
    forall id :: (uid, id) in w.shared && id in store ==> id in UidsOfNodes(nodes)
  }

  /** A user who asks for everything that is shared with them gets back the groups that others' un-sharing took. */
  lemma ListingRestores(store: Store, w: World, a: Action, v: World, g: string)
    requires CleanGroups(store) && a.ListShared? && StepBy(store, w, a, v) && NeverMore(store, w)
    requires a.uid != "" && ListsAll(store, w, a.uid, a.nodes)
    ensures Listed(v, a.uid, g) <==> Warranted(store, v, a.uid, g)
  {
    ListedAfterListing(store, w, a, v, a.uid, g);
    if Warranted(store, w, a.uid, g) {
      var id :| WarrantedBy(store, w, a.uid, g, id);
      var k :| 0 <= k < |a.nodes| && UidsOfNodes(a.nodes)[k] == id;
      NamedNode(store, a.nodes, a.uid, g, k);
      assert NamesGroupAt(a.nodes, a.uid, g, k);
    }
  }

  /** Un-sharing one of two nodes of a group: the other is still shared, and its group is gone. */
  lemma OneOfTwo(store: Store, w: World, v: World, u: string, g: string, one: Authz, other: string)
    requires CleanGroups(store) && StepBy(store, w, Share(Edges.Delete, [u], [one]), v)
    requires u != "" && ReadableIn(store, u, g, one.uid) && WarrantedBy(store, w, u, g, other) && other != one.uid
    ensures (u, other) in v.shared && Warranted(store, v, u, g) && !Listed(v, u, g)
  {
    var a := Share(Edges.Delete, [u], [one]);
    NamedNode(store, a.nodes, u, g, 0);
    ListAfter(store, w, a, v, u, g);
    EdgeAfter(store, w, a, v, u, other);
    assert WarrantedBy(store, v, u, g, other);
  }

  // --------------------------------------------------------------------------------- runs

  ghost predicate StepAt(store: Store, run: seq<World>, actions: seq<Action>, i: int)
    requires 0 <= i < |actions| && |run| == |actions| + 1
  {
    StepBy(store, run[i], actions[i], run[i + 1])
  }

  ghost predicate Behaviour(store: Store, run: seq<World>, actions: seq<Action>) {
    |run| == |actions| + 1 && forall i :: 0 <= i < |actions| ==> StepAt(store, run, actions, i)
  }

  lemma StepKeepsNeverMore(store: Store, w: World, a: Action, v: World)
    requires CleanGroups(store) && StepBy(store, w, a, v) && NeverMore(store, w)
    ensures NeverMore(store, v)
  {
    match a
    case Share(Add, _, _) => SharingAgrees(store, w, a, v);
    case Share(Delete, _, _) => UnsharingNeverMore(store, w, a, v);
    case ListShared(_, _) => ListingAgrees(store, w, a, v);
  }

  lemma NothingListed(store: Store, w: World)
    requires w.sessions.allow == map[]
    ensures NeverMore(store, w)
  {
  }

  /** From a server start on, whatever is shared in the database by then: no list is ever too long. */
  lemma {:induction false} ListsAreNeverTooLong(store: Store, run: seq<World>, actions: seq<Action>, i: nat)
    requires CleanGroups(store) && Behaviour(store, run, actions) && i < |run| && run[0].sessions.allow == map[]
    ensures NeverMore(store, run[i])
  {
    if i == 0 {
      NothingListed(store, run[0]);
    } else {
      ListsAreNeverTooLong(store, run, actions, i - 1);
      assert StepAt(store, run, actions, i - 1);
      StepKeepsNeverMore(store, run[i - 1], actions[i - 1], run[i]);
    }
  }

  /** The request un-shares some but not all of a user's nodes of a group. */
  ghost predicate Splits(store: Store, w: World, a: Action) {
    a.Share? && a.change == Edges.Delete && LeavesOther(store, w, a.users, a.nodes)
  }

  lemma StepAgreesExactly(store: Store, w: World, a: Action, v: World)
    requires CleanGroups(store) && StepBy(store, w, a, v) && Agree(store, w)
    ensures Agree(store, v) <==> !Splits(store, w, a)
  {
    match a
    case Share(Add, _, _) => SharingAgrees(store, w, a, v);
    case Share(Delete, _, _) => UnsharingAgreesExactly(store, w, a, v);
    case ListShared(_, _) => ListingAgrees(store, w, a, v);
  }

  ghost predicate AgreeAt(store: Store, run: seq<World>, i: int)
    requires 0 <= i < |run|
  {
    Agree(store, run[i])
  }

  ghost predicate SplitsAt(store: Store, run: seq<World>, actions: seq<Action>, i: int)
    requires 0 <= i < |actions| && |run| == |actions| + 1
  {
    Splits(store, run[i], actions[i])
  }

  lemma {:induction false} AgreeUpTo(store: Store, run: seq<World>, actions: seq<Action>, i: nat)
    requires CleanGroups(store) && Behaviour(store, run, actions) && i < |run| && Agree(store, run[0])
    requires forall k :: 0 <= k < |actions| ==> !SplitsAt(store, run, actions, k)
    ensures Agree(store, run[i])
  {
    if i > 0 {
      AgreeUpTo(store, run, actions, i - 1);
      assert StepAt(store, run, actions, i - 1) && !SplitsAt(store, run, actions, i - 1);
      StepAgreesExactly(store, run[i - 1], actions[i - 1], run[i]);
    }
  }

  /**
   * Allowlists and share edges agree at every point of a run of share requests exactly if none of them
   * un-shares some but not all of a user's nodes of a group.
   */
  lemma AlwaysAgreeExactly(store: Store, run: seq<World>, actions: seq<Action>)
    requires CleanGroups(store) && Behaviour(store, run, actions) && Agree(store, run[0])
    ensures (forall i :: 0 <= i < |run| ==> AgreeAt(store, run, i))
       <==> forall i :: 0 <= i < |actions| ==> !SplitsAt(store, run, actions, i)
  {
    if forall i :: 0 <= i < |actions| ==> !SplitsAt(store, run, actions, i) {
      forall i | 0 <= i < |run| ensures AgreeAt(store, run, i) { AgreeUpTo(store, run, actions, i); }
    }
    if forall i :: 0 <= i < |run| ==> AgreeAt(store, run, i) {
      forall i | 0 <= i < |actions| ensures !SplitsAt(store, run, actions, i) {
        assert AgreeAt(store, run, i) && AgreeAt(store, run, i + 1) && StepAt(store, run, actions, i);
        StepAgreesExactly(store, run[i], actions[i], run[i + 1]);
      }
    }
  }

  /** Every share request on stored nodes is a step. */
  lemma RequestsAreSteps(store: Store, w: World, change: Edges.Change, users: seq<string>, nodes: seq<Authz>)
      returns (v: World)
    requires AllSay(store, nodes) && forall u :: u in users ==> !DiesFor(nodes, u)
    ensures StepBy(store, w, Share(change, users, nodes), v)
  {
    var before := w.sessions;
    var lists := map u | u in before.allow.Keys + (set x | x in users) ::
      if u in users then Updated(before, change == Edges.Add, u, Pieces(SharedSgis(nodes, u))) else Of(before.allow, u);
    v := World(EdgesAfter(w.shared, change, true, users, nodes), before.(allow := lists));
    assert users[..|users|] == users;
  }
}
