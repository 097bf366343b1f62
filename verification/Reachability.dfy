/** Created subgraphs hang together: which new nodes can be reached from the parent after "PUT nodes". */
module Reachability {
  import opened Text
  import opened Uid
  import opened Upsert
  import opened UpsertTheorems
  import opened Subgraph

  // -------------------------------------------------------------------- within the request

  /** The request links `a` to `b`. */
  predicate Link(items: seq<Item>, a: string, b: string) {
    exists i :: 0 <= i < |items| && items[i].uid == a && b in items[i].targets
  }

  ghost predicate Chain(items: seq<Item>, path: seq<string>) {
    path != [] && forall k :: 0 < k < |path| ==> Link(items, path[k - 1], path[k])
  }

  ghost predicate ChainFrom(items: seq<Item>, path: seq<string>, a: string, b: string) {
    Chain(items, path) && path[0] == a && path[|path| - 1] == b
  }

  /** There is a way along the request's links. */
  ghost predicate Leads(items: seq<Item>, a: string, b: string) { exists path :: ChainFrom(items, path, a, b) }

  ghost predicate Acyclic(items: seq<Item>) {
    forall path, a :: ChainFrom(items, path, a, a) ==> |path| == 1
  }

  ghost predicate Hangs(items: seq<Item>, uid: string)
    requires items != []
  {
    exists root :: root in Roots(items) && Leads(items, root, uid)
  }

  lemma LeadsStep(items: seq<Item>, a: string, b: string, c: string)
    requires Leads(items, a, b) && Link(items, b, c)
    ensures Leads(items, a, c)
  {
    var path :| ChainFrom(items, path, a, b);
    assert ChainFrom(items, path + [c], a, c);
  }

  lemma LeadsItself(items: seq<Item>, a: string)
    ensures Leads(items, a, a)
  {
    assert ChainFrom(items, [a], a, a);
  }

  lemma Prepend(items: seq<Item>, a: string, path: seq<string>, b: string, c: string)
    requires Link(items, a, b) && ChainFrom(items, path, b, c)
    ensures ChainFrom(items, [a] + path, a, c)
  {
  }

  lemma {:induction false} UnlinkedHolds(uids: seq<string>, linked: set<string>, uid: string)
    ensures uid in Unlinked(uids, linked) <==> uid in uids && uid !in linked
  {
    if uids != [] {
      UnlinkedHolds(uids[..|uids| - 1], linked, uid);
      assert uids == uids[..|uids| - 1] + [uids[|uids| - 1]];
    }
  }

  lemma LinkedBySomeNode(items: seq<Item>, uid: string) returns (from: string)
    requires uid in Linked(items)
    ensures Link(items, from, uid) && from in ItemUids(items)
  {
    var i, j :| 0 <= i < |items| && 0 <= j < |items[i].targets| && items[i].targets[j] == uid;
    from := items[i].uid;
    assert ItemUids(items)[i] == from;
  }

  /**
   * Walking against the links without meeting a cycle ends at a node that nothing links to. `seen` are
   * the nodes on the way, all of which `uid` leads to.
   */
  lemma {:induction false} SomeUnlinkedAbove(items: seq<Item>, uid: string, seen: set<string>) returns (root: string)
    requires Acyclic(items) && uid in ItemUids(items) && uid !in seen
    requires forall s :: s in seen ==> Leads(items, uid, s)
    ensures root in Unlinked(ItemUids(items), Linked(items)) && Leads(items, root, uid)
    decreases (set u | u in ItemUids(items)) - seen
  {
    if uid !in Linked(items) {
      UnlinkedHolds(ItemUids(items), Linked(items), uid);
      LeadsItself(items, uid);
      return uid;
    }
    var from := LinkedBySomeNode(items, uid);
    forall s | s in seen + {uid} ensures Leads(items, from, s) {
      if s == uid { LeadsItself(items, uid); }
      var path :| ChainFrom(items, path, uid, s);
      Prepend(items, from, path, uid, s);
    }
    if from in seen + {uid} {
      var path: seq<string>;
      if from == uid { path := [uid]; } else { path :| ChainFrom(items, path, uid, from); }
      Prepend(items, from, path, uid, from);
      assert false;
    }
    root := SomeUnlinkedAbove(items, from, seen + {uid});
    LeadsStep(items, root, from, uid);
  }

  /** Without cycles among the placeholders, every new node hangs from one that gets an edge from the parent. */
  lemma AcyclicAllHang(items: seq<Item>, uid: string)
    requires items != [] && Acyclic(items) && uid in ItemUids(items)
    ensures Hangs(items, uid)
  {
    var root := SomeUnlinkedAbove(items, uid, {});
    assert root in Roots(items);
  }

  /** If every new node has an in-link, only those below the first one hang from anything. */
  lemma AllLinkedHangFromFirst(items: seq<Item>, uid: string)
    requires items != [] && forall u :: u in ItemUids(items) ==> u in Linked(items)
    ensures Hangs(items, uid) <==> Leads(items, items[0].uid, uid)
  {
    var unlinked := Unlinked(ItemUids(items), Linked(items));
    if unlinked != [] {
      assert unlinked[0] in unlinked;
      UnlinkedHolds(ItemUids(items), Linked(items), unlinked[0]);
      assert false;
    }
  }

  // -------------------------------------------------------------------------- in the database

  ghost predicate Walk(edges: set<(string, string)>, path: seq<string>, a: string, b: string) {
    && path != [] && path[0] == a && path[|path| - 1] == b
    && forall k :: 0 < k < |path| ==> (path[k - 1], path[k]) in edges
  }

  ghost predicate Reaches(edges: set<(string, string)>, a: string, b: string) { exists path :: Walk(edges, path, a, b) }

  /** An edge into a new node comes from anywhere, if the node is a root, or from a new node that links to it. */
  ghost predicate ComesFrom(items: seq<Item>, final: string -> string, x: string, uid: string)
    requires items != []
  {
    uid in Roots(items) || exists from :: from in ItemUids(items) && Link(items, from, uid) && x == final(from)
  }

  /** The stored edges into new nodes are requested ones. */
  ghost predicate OnlyRequested(items: seq<Item>, stored: set<(string, string)>, parent: string,
                                final: string -> string)
    requires items != []
  {
    && (forall uid :: uid in ItemUids(items) ==> final(uid) != parent)
    && (forall x, uid :: uid in ItemUids(items) && (x, final(uid)) in stored ==> ComesFrom(items, final, x, uid))
  }

  /** The requested edges, and the parent's to the roots, are stored. */
  ghost predicate AllRequested(items: seq<Item>, stored: set<(string, string)>, parent: string, final: string -> string)
    requires items != []
  {
    && (forall root :: root in Roots(items) ==> (parent, final(root)) in stored)
    && (forall a, b :: Link(items, a, b) ==> (final(a), final(b)) in stored)
  }

  lemma {:induction false} ReachedHangs(items: seq<Item>, stored: set<(string, string)>, parent: string,
                                        final: string -> string, uid: string, path: seq<string>)
    requires items != [] && OnlyRequested(items, stored, parent, final) && uid in ItemUids(items)
    requires Walk(stored, path, parent, final(uid))
    ensures Hangs(items, uid)
    decreases |path|
  {
    var n := |path| - 1;
    assert n > 0;
    assert (path[n - 1], path[n]) in stored;
    if uid in Roots(items) {
      LeadsItself(items, uid);
    } else {
      var from :| from in ItemUids(items) && Link(items, from, uid) && path[n - 1] == final(from);
      assert Walk(stored, path[..n], parent, final(from));
      ReachedHangs(items, stored, parent, final, from, path[..n]);
      var root :| root in Roots(items) && Leads(items, root, from);
      LeadsStep(items, root, from, uid);
    }
  }

  lemma WalkStep(edges: set<(string, string)>, a: string, b: string, c: string)
    requires Reaches(edges, a, b) && (b, c) in edges
    ensures Reaches(edges, a, c)
  {
    var path :| Walk(edges, path, a, b);
    assert Walk(edges, path + [c], a, c);
  }

  lemma {:induction false} HangingReached(items: seq<Item>, stored: set<(string, string)>, parent: string,
                                          final: string -> string, uid: string, path: seq<string>, root: string)
    requires items != [] && AllRequested(items, stored, parent, final)
    requires root in Roots(items) && ChainFrom(items, path, root, uid)
    ensures Reaches(stored, parent, final(uid))
    decreases |path|
  {
    if |path| == 1 {
      assert Walk(stored, [parent, final(uid)], parent, final(uid));
    } else {
      var n := |path| - 1;
      assert ChainFrom(items, path[..n], root, path[n - 1]);
      HangingReached(items, stored, parent, final, path[n - 1], path[..n], root);
      assert Link(items, path[n - 1], path[n]);
      WalkStep(stored, parent, final(path[n - 1]), final(uid));
    }
  }

  lemma ReachesIffHangs(items: seq<Item>, stored: set<(string, string)>, parent: string, final: string -> string,
                        uid: string)
    requires items != [] && OnlyRequested(items, stored, parent, final) && AllRequested(items, stored, parent, final)
    requires uid in ItemUids(items)
    ensures Reaches(stored, parent, final(uid)) <==> Hangs(items, uid)
  {
    if Reaches(stored, parent, final(uid)) {
      var path :| Walk(stored, path, parent, final(uid));
      ReachedHangs(items, stored, parent, final, uid, path);
    }
    if Hangs(items, uid) {
      var root :| root in Roots(items) && Leads(items, root, uid);
      var path :| ChainFrom(items, path, root, uid);
      HangingReached(items, stored, parent, final, uid, path, root);
    }
  }

  /** A "PUT nodes" below an existing node, and the edges stored before it. */
  datatype PutRequest = PutRequest(md5: string -> string, assign: string -> string, items: seq<Item>,
                                   edges: set<(string, string)>, parent: string, owner: string, sgi: string)
  {
    /** The list that was upserted. */
    function All(): seq<Item>
      requires items != []
    {
      WithParent(items, parent, owner, sgi)
    }

    /** The edges stored after it. */
    function InDatabase(): set<(string, string)>
      requires items != []
    {
      edges + Written(assign, RenamedItems(NamingOf(md5), All()))
    }

    function Uid(name: string): string { Final(md5, assign, name) }

    /** It was accepted: placeholders only, below an existing node, answered with fresh uids. */
    ghost predicate Accepted() {
      && items != []
      && (forall i :: 0 <= i < |items| ==> CheckUidIsPlaceholder(items[i].uid))
      && (forall i, j :: 0 <= i < |items| && 0 <= j < |items[i].targets| ==> CheckUidIsPlaceholder(items[i].targets[j]))
      && ValidateUid(parent) && TrimSpace(parent) == parent
      && Closed(NamingOf(md5), All()) && Separates(NamingOf(md5), All()) && MintsFresh(md5, assign, All(), edges)
    }
  }

  lemma RootIsNode(items: seq<Item>, root: string)
    requires items != [] && root in Roots(items)
    ensures root in ItemUids(items)
  {
    UnlinkedHolds(ItemUids(items), Linked(items), root);
    assert ItemUids(items)[0] in ItemUids(items);
  }

  lemma NodesAreTemp(items: seq<Item>, uid: string)
    requires uid in ItemUids(items) && forall i :: 0 <= i < |items| ==> CheckUidIsPlaceholder(items[i].uid)
    ensures IsTemp(uid)
  {
    var i :| 0 <= i < |items| && ItemUids(items)[i] == uid;
    PlaceholderIsTemp(items[i].uid);
  }

  lemma ListMentions(p: PutRequest, uid: string)
    requires p.items != [] && uid in ItemUids(p.items)
    ensures HasName(p.All(), uid) && HasName(p.All(), p.parent)
  {
    var i :| 0 <= i < |p.items| && ItemUids(p.items)[i] == uid;
    assert p.All()[i].uid == uid && p.All()[|p.items|].uid == p.parent;
  }

  lemma FreshIsNotParent(p: PutRequest, uid: string)
    requires p.items != [] && MintsFresh(p.md5, p.assign, p.All(), p.edges)
    requires HasName(p.All(), uid) && HasName(p.All(), p.parent) && IsTemp(uid) && !IsTemp(p.parent)
    ensures p.Uid(p.parent) == TrimSpace(p.parent) && p.Uid(uid) != TrimSpace(p.parent)
  {
    FinalOf(p.md5, p.assign, uid);
    FinalOf(p.md5, p.assign, p.parent);
  }

  lemma NodeIsTemp(p: PutRequest, uid: string)
    requires p.Accepted() && uid in ItemUids(p.items)
    ensures IsTemp(uid) && !IsTemp(p.parent) && HasName(p.All(), uid)
    ensures p.Uid(p.parent) == p.parent && p.Uid(uid) != p.parent
  {
    NodesAreTemp(p.items, uid);
    ListMentions(p, uid);
    FreshIsNotParent(p, uid);
  }

  /** An edge that was written comes from one entry of the list. */
  lemma SourceOfWritten(p: PutRequest, e: (string, string)) returns (i: nat, j: nat)
    requires p.items != [] && e in Written(p.assign, RenamedItems(NamingOf(p.md5), p.All()))
    ensures i < |p.All()| && j < |p.All()[i].targets|
    ensures e == (p.Uid(p.All()[i].uid), p.Uid(p.All()[i].targets[j]))
  {
    var r := RenamedItems(NamingOf(p.md5), p.All());
    i, j :| 0 <= i < |r| && 0 <= j < |r[i].targets|
      && e == (Address(p.assign, r[i].uid), Address(p.assign, r[i].targets[j]));
  }

  lemma MeantTheSame(a: string, b: string)
    requires IsTemp(b) && Meant(a) == Meant(b)
    ensures a == b
  {
  }

  lemma SameName(p: PutRequest, target: string, uid: string)
    requires p.Accepted() && HasName(p.All(), target) && HasName(p.All(), uid) && IsTemp(uid)
    requires p.Uid(target) == p.Uid(uid)
    ensures target == uid
  {
    RenamingIsInjective(p.md5, p.assign, p.All(), p.edges, target, uid);
    MeantTheSame(target, uid);
  }

  lemma EntryInto(p: PutRequest, x: string, uid: string) returns (i: nat)
    requires p.Accepted() && uid in ItemUids(p.items) && (x, p.Uid(uid)) in p.InDatabase()
    ensures i < |p.All()| && uid in p.All()[i].targets && x == p.Uid(p.All()[i].uid)
  {
    NodeIsTemp(p, uid);
    NewNodesHaveOnlyRequestedEdges(p.md5, p.assign, p.All(), p.edges, uid, (x, p.Uid(uid)));
    var j;
    i, j := SourceOfWritten(p, (x, p.Uid(uid)));
    assert HasName(p.All(), p.All()[i].targets[j]);
    SameName(p, p.All()[i].targets[j], uid);
  }

  lemma NodeEntry(p: PutRequest, i: nat, uid: string)
    requires p.items != [] && i < |p.items| && uid in p.All()[i].targets
    ensures p.All()[i].uid in ItemUids(p.items) && Link(p.items, p.All()[i].uid, uid)
  {
    assert p.All()[i] == Owned(p.items[i], p.owner, p.sgi);
    assert ItemUids(p.items)[i] == p.items[i].uid;
  }

  lemma EntryComesFrom(p: PutRequest, final: string -> string, i: nat, uid: string)
    requires p.items != [] && i < |p.All()| && uid in p.All()[i].targets
    requires final(p.All()[i].uid) == p.Uid(p.All()[i].uid)
    ensures ComesFrom(p.items, final, p.Uid(p.All()[i].uid), uid)
  {
    if i < |p.items| {
      NodeEntry(p, i, uid);
    } else {
      assert p.All()[i].targets == Roots(p.items);
    }
  }

  lemma WrittenIsStored(p: PutRequest, i: nat, j: nat)
    requires p.items != [] && i < |p.All()| && j < |p.All()[i].targets|
    ensures (p.Uid(p.All()[i].uid), p.Uid(p.All()[i].targets[j])) in p.InDatabase()
  {
    var r := RenamedItems(NamingOf(p.md5), p.All());
    assert (Address(p.assign, r[i].uid), Address(p.assign, r[i].targets[j])) in Written(p.assign, r);
  }

  lemma RootIsStored(p: PutRequest, root: string)
    requires p.Accepted() && root in Roots(p.items)
    ensures (p.parent, p.Uid(root)) in p.InDatabase()
  {
    RootIsNode(p.items, root);
    NodeIsTemp(p, root);
    var j :| 0 <= j < |Roots(p.items)| && Roots(p.items)[j] == root;
    WrittenIsStored(p, |p.items|, j);
  }

  lemma LinkIsStored(p: PutRequest, a: string, b: string)
    requires p.items != [] && Link(p.items, a, b)
    ensures (p.Uid(a), p.Uid(b)) in p.InDatabase()
  {
    var i :| 0 <= i < |p.items| && p.items[i].uid == a && b in p.items[i].targets;
    var j :| 0 <= j < |p.items[i].targets| && p.items[i].targets[j] == b;
    assert p.All()[i] == Owned(p.items[i], p.owner, p.sgi);
    WrittenIsStored(p, i, j);
  }

  /**
   * After "PUT nodes", in the whole database, a new node can be reached from the authorised parent
   * exactly when, in the request, it hangs from a node that was given an edge from the parent.
   */
  lemma ReachableExactlyWhenHanging(p: PutRequest, uid: string)
    requires p.Accepted() && uid in ItemUids(p.items)
    ensures Reaches(p.InDatabase(), p.parent, p.Uid(uid)) <==> Hangs(p.items, uid)
  {
    var final := (name: string) => p.Uid(name);
    forall u | u in ItemUids(p.items) ensures final(u) != p.parent { NodeIsTemp(p, u); }
    forall x, u | u in ItemUids(p.items) && (x, final(u)) in p.InDatabase() ensures ComesFrom(p.items, final, x, u) {
      var i := EntryInto(p, x, u);
      EntryComesFrom(p, final, i, u);
    }
    forall root | root in Roots(p.items) ensures (p.parent, final(root)) in p.InDatabase() { RootIsStored(p, root); }
    forall a, b | Link(p.items, a, b) ensures (final(a), final(b)) in p.InDatabase() { LinkIsStored(p, a, b); }
    ReachesIffHangs(p.items, p.InDatabase(), p.parent, final, uid);
  }

  /** Created subgraphs hang together: acyclic ones entirely; fully linked ones exactly below their first node. */
  lemma CreatedSubgraphsHangTogether(p: PutRequest, uid: string)
    requires p.Accepted() && uid in ItemUids(p.items)
    ensures Acyclic(p.items) ==> Reaches(p.InDatabase(), p.parent, p.Uid(uid))
    ensures (forall u :: u in ItemUids(p.items) ==> u in Linked(p.items)) ==>
      (Reaches(p.InDatabase(), p.parent, p.Uid(uid)) <==> Leads(p.items, p.items[0].uid, uid))
  {
    ReachableExactlyWhenHanging(p, uid);
    if Acyclic(p.items) {
      AcyclicAllHang(p.items, uid);
    }
    if forall u :: u in ItemUids(p.items) ==> u in Linked(p.items) {
      AllLinkedHangFromFirst(p.items, uid);
    }
  }
}
