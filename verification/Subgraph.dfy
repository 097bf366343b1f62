/**
 * Creating a subgraph below an existing node (api/graph.go "PUT nodes", requests/createnodes.go): owner
 * and share group are set, edges are cut to stubs, and the parent gets edges to the nodes that no
 * other new node links to.
 */
module Subgraph {
  import opened Graph
  import opened Upsert

  // ---------------------------------------------------------------------- validation

  /** A node list as decoded from JSON: `null` entries, and edges nested to any depth. */
  datatype Decoded = Null | Decoded(uid: string, edges: seq<Decoded>)

  predicate CheckUidIsPlaceholder(uid: string) { "$" <= uid }

  predicate CheckUidsArePlaceholders(nl: seq<Decoded>) {
    forall i :: 0 <= i < |nl| ==>
      nl[i] != Null && CheckUidIsPlaceholder(nl[i].uid) && CheckUidsArePlaceholders(nl[i].edges)
  }

  /** `sub` is in the list, or below an entry of it, at the end of a path of indices. */
  predicate Below(nl: seq<Decoded>, path: seq<nat>, sub: Decoded)
    decreases |path|
  {
    && path != [] && path[0] < |nl|
    && if |path| == 1 then sub == nl[path[0]] else nl[path[0]] != Null && Below(nl[path[0]].edges, path[1..], sub)
  }

  /** Validation reaches every depth: it passes only if each node anywhere is there and has a placeholder. */
  lemma {:induction false} PlaceholdersEverywhere(nl: seq<Decoded>, path: seq<nat>, sub: Decoded)
    requires CheckUidsArePlaceholders(nl) && Below(nl, path, sub)
    ensures sub != Null && CheckUidIsPlaceholder(sub.uid)
    decreases |path|
  {
    if |path| > 1 {
      PlaceholdersEverywhere(nl[path[0]].edges, path[1..], sub);
    }
  }

  /** And it fails only if some node somewhere is missing or has no placeholder. */
  lemma {:induction false} SomewhereNotPlaceholder(nl: seq<Decoded>) returns (path: seq<nat>, sub: Decoded)
    requires !CheckUidsArePlaceholders(nl)
    ensures Below(nl, path, sub) && (sub == Null || !CheckUidIsPlaceholder(sub.uid))
    decreases nl
  {
    var i :| 0 <= i < |nl|
      && !(nl[i] != Null && CheckUidIsPlaceholder(nl[i].uid) && CheckUidsArePlaceholders(nl[i].edges));
    if nl[i] == Null || !CheckUidIsPlaceholder(nl[i].uid) {
      path, sub := [i], nl[i];
    } else {
      var rest, s := SomewhereNotPlaceholder(nl[i].edges);
      path, sub := [i] + rest, s;
      assert path[1..] == rest;
    }
  }

  /** A placeholder never passes for the uid of an existing node. */
  lemma PlaceholderIsTemp(uid: string)
    requires CheckUidIsPlaceholder(uid)
    ensures IsTemp(uid)
  {
    assert uid[0] == '$';
    OtherStartIsTemp(uid);
  }

  // -------------------------------------------------------------------------- the request

  function Linked(items: seq<Item>): set<string> {
    set i, j | 0 <= i < |items| && 0 <= j < |items[i].targets| :: items[i].targets[j]
  }

  function Unlinked(uids: seq<string>, linked: set<string>): seq<string> {
    if uids == [] then []
    else
      Unlinked(uids[..|uids| - 1], linked) + if uids[|uids| - 1] in linked then [] else [uids[|uids| - 1]]
  }

  /** The new nodes that the parent is given edges to. */
  function Roots(items: seq<Item>): seq<string>
    requires items != []
  {
    var unlinked := Unlinked(ItemUids(items), Linked(items));
    if unlinked == [] then [items[0].uid] else unlinked
  }

  lemma {:induction false} UnlinkedExactly(uids: seq<string>, linked: set<string>, uid: string)
    ensures uid in Unlinked(uids, linked) <==> uid in uids && uid !in linked
  {
    if uids != [] { UnlinkedExactly(uids[..|uids| - 1], linked, uid); }
  }

  /** Some node of the request has an edge to this one. */
  ghost predicate HasLinkTo(items: seq<Item>, uid: string) {
    exists i :: 0 <= i < |items| && uid in items[i].targets
  }

  lemma UnlinkedMember(items: seq<Item>, uid: string)
    ensures uid in Unlinked(ItemUids(items), Linked(items)) <==> uid in ItemUids(items) && !HasLinkTo(items, uid)
  {
    UnlinkedExactly(ItemUids(items), Linked(items), uid);
    LinkedExactly(items, uid);
  }

  /** The parent is given edges to exactly the nodes that no node of the request links to, if there are any. */
  lemma RootsExactly(items: seq<Item>, uid: string, k: nat)
    requires k < |items| && !HasLinkTo(items, items[k].uid)
    ensures uid in Roots(items) <==> uid in ItemUids(items) && !HasLinkTo(items, uid)
  {
    assert ItemUids(items)[k] == items[k].uid;
    UnlinkedMember(items, items[k].uid);
    UnlinkedMember(items, uid);
  }

  /** Where every node is linked to, the parent is given one edge, to the first. */
  lemma RootsOfCycles(items: seq<Item>)
    requires items != [] && forall k :: 0 <= k < |items| ==> HasLinkTo(items, items[k].uid)
    ensures Roots(items) == [items[0].uid]
  {
    if Unlinked(ItemUids(items), Linked(items)) != [] {
      var k := UnlinkedIsThere(items);
    }
  }

  lemma UnlinkedIsThere(items: seq<Item>) returns (k: nat)
    requires Unlinked(ItemUids(items), Linked(items)) != []
    ensures k < |items| && !HasLinkTo(items, items[k].uid)
  {
    var uid := Unlinked(ItemUids(items), Linked(items))[0];
    UnlinkedMember(items, uid);
    k :| k < |items| && ItemUids(items)[k] == uid;
  }

  lemma LinkedExactly(items: seq<Item>, uid: string)
    ensures uid in Linked(items) <==> HasLinkTo(items, uid)
  {
    if HasLinkTo(items, uid) {
      var i :| 0 <= i < |items| && uid in items[i].targets;
      var j :| 0 <= j < |items[i].targets| && items[i].targets[j] == uid;
    }
  }

  function Owned(item: Item, owner: string, sgi: string): Item { item.(own := Some(owner), sgi := Some(sgi)) }

  /** What is upserted for a request: its nodes, owned and shared, and the parent with its new edges. */
  function WithParent(items: seq<Item>, parent: string, owner: string, sgi: string): (r: seq<Item>)
    requires items != []
    ensures |r| == |items| + 1
    ensures forall i :: 0 <= i < |items| ==> r[i] == Owned(items[i], owner, sgi)
    ensures r[|items|] == Item(parent, None, None, NO_BITS, Roots(items))
  {
    seq(|items|, i requires 0 <= i < |items| => Owned(items[i], owner, sgi))
    + [Item(parent, None, None, NO_BITS, Roots(items))]
  }

  predicate LinksItself(item: Item) { item.uid in item.targets }

  // ---------------------------------------------------------------------------- the handler

  /** The inner loop on one node: refuses a self link, puts fresh stubs in place of the decoded edges. */
  method CutEdges(n: GraphNode, linked: set<string>) returns (selfLink: bool, l: set<string>)
    requires Filled(n)
    modifies n`outEdges
    ensures selfLink <==> n.uid in old(Targets(n))
    ensures !selfLink ==> Targets(n) == old(Targets(n)) && Filled(n) && OwnStubs(n)
    ensures !selfLink ==> forall e :: e in n.outEdges ==> fresh(e)
    ensures !selfLink ==> l == linked + set t | t in old(Targets(n))
  {
    l := linked;
    ghost var targets := Targets(n);
    ghost var before := n.outEdges;
    for i := 0 to |n.outEdges|
      invariant |n.outEdges| == |before|
      invariant forall k :: 0 <= k < i ==>
        n.outEdges[k] != null && fresh(n.outEdges[k]) && n.outEdges[k].uid == targets[k]
      invariant forall k :: i <= k < |before| ==>
        n.outEdges[k] == before[k] && n.outEdges[k] != null && n.outEdges[k].uid == targets[k]
      invariant forall j, k :: 0 <= j < k < i ==> n.outEdges[j] != n.outEdges[k]
      invariant forall k :: 0 <= k < i ==> targets[k] != n.uid
      invariant l == linked + set t | t in targets[..i]
    {
      var edgeUid := n.outEdges[i].uid;
      if edgeUid == n.uid {
        assert targets[i] == n.uid;
        return true, l;
      }
      var stub := new GraphNode(edgeUid);
      n.outEdges := n.outEdges[i := stub];
      l := l + {edgeUid};
      assert targets[..i + 1] == targets[..i] + [targets[i]];
    }
    selfLink := false;
    assert targets[..|before|] == targets;
  }

  /** The node stands as it came, or owned and cut, with stubs of its own. */
  predicate Came(n: GraphNode, item: Item)
    reads n`uid, n`own, n`sgi, n`bits, n`outEdges, n.outEdges`uid
  {
    n.uid == item.uid && n.own == item.own && n.sgi == item.sgi && n.bits == item.bits && Targets(n) == item.targets
  }

  ghost predicate Cut(n: GraphNode, item: Item)
    reads n`uid, n`own, n`sgi, n`bits, n`outEdges, n.outEdges`uid
  {
    Came(n, item) && Filled(n) && OwnStubs(n)
  }

  lemma LinkedStep(items: seq<Item>, i: nat)
    requires i < |items|
    ensures Linked(items[..i + 1]) == Linked(items[..i]) + set t | t in items[i].targets
  {
    var front := items[..i + 1];
    forall t | t in items[i].targets ensures t in Linked(front) {
      var j :| 0 <= j < |items[i].targets| && items[i].targets[j] == t;
      assert front[i].targets[j] == t;
    }
    forall t | t in Linked(items[..i]) ensures t in Linked(front) {
      var k, j :| 0 <= k < i && 0 <= j < |items[..i][k].targets| && items[..i][k].targets[j] == t;
      assert front[k].targets[j] == t;
    }
    forall t | t in Linked(front) ensures t in Linked(items[..i]) || t in items[i].targets {
      var k, j :| 0 <= k < |front| && 0 <= j < |front[k].targets| && front[k].targets[j] == t;
      if k < i { assert items[..i][k].targets[j] == t; }
    }
  }

  method OwnAndCutOne(n: GraphNode, owner: string, sgi: string, linked: set<string>, ghost item: Item)
      returns (selfLink: bool, l: set<string>)
    requires Filled(n) && Came(n, item)
    modifies n`own, n`sgi, n`outEdges
    ensures selfLink <==> LinksItself(item)
    ensures !selfLink ==> Cut(n, Owned(item, owner, sgi)) && l == linked + set t | t in item.targets
    ensures !selfLink ==> forall e :: e in n.outEdges ==> fresh(e)
  {
    n.own := Some(owner);
    n.sgi := Some(sgi);
    selfLink, l := CutEdges(n, linked);
  }

  ghost predicate CutSoFar(nodes: seq<GraphNode>, items: seq<Item>, owner: string, sgi: string, done: nat)
    reads nodes, Stubs(nodes)
  {
    |items| == |nodes| && forall k :: 0 <= k < |nodes| ==>
      if k < done then Cut(nodes[k], Owned(items[k], owner, sgi)) else Filled(nodes[k]) && Came(nodes[k], items[k])
  }

  /** No two of the first nodes share a stub. */
  ghost predicate Apart(nodes: seq<GraphNode>, done: nat)
    reads nodes`outEdges
  {
    forall l, k :: 0 <= l < k < done && k < |nodes| ==> NoneShared(nodes[l].outEdges, nodes[k].outEdges)
  }

  /** The first nodes' stubs are all among these. */
  ghost predicate StubsWithin(nodes: seq<GraphNode>, done: nat, made: set<GraphNode?>)
    reads nodes`outEdges
  {
    forall k :: 0 <= k < done && k < |nodes| ==> EdgesWithin(nodes[k].outEdges, made)
  }

  ghost predicate EdgesWithin(stubs: seq<GraphNode?>, made: set<GraphNode?>) { forall e :: e in stubs ==> e in made }

  lemma StubsOfWithin(list: seq<GraphNode>, made: set<GraphNode?>)
    requires StubsWithin(list, |list|, made)
    ensures Stubs(list) <= made
  {
    forall e | e in Stubs(list) ensures e in made {
      var i, j :| 0 <= i < |list| && 0 <= j < |list[i].outEdges| && e == list[i].outEdges[j];
      assert EdgesWithin(list[i].outEdges, made);
    }
  }

  lemma WithinStep(nodes: seq<GraphNode>, i: nat, made: set<GraphNode?>, more: set<GraphNode?>)
    requires i < |nodes| && StubsWithin(nodes, i, made) && EdgesWithin(nodes[i].outEdges, more)
    ensures StubsWithin(nodes, i + 1, made + more)
  {
    forall k | 0 <= k < i + 1 ensures EdgesWithin(nodes[k].outEdges, made + more) {
      if k < i { assert EdgesWithin(nodes[k].outEdges, made); }
    }
  }

  /** One turn of the first loop of "PUT nodes". */
  method OwnAndCutAt(nodes: seq<GraphNode>, i: nat, owner: string, sgi: string, linked: set<string>,
                     ghost items: seq<Item>, ghost made: set<GraphNode?>)
      returns (selfLink: bool, l: set<string>, ghost more: set<GraphNode?>)
    requires i < |nodes| && forall j, k :: 0 <= j < k < |nodes| ==> nodes[j] != nodes[k]
    requires CutSoFar(nodes, items, owner, sgi, i) && Apart(nodes, i) && StubsWithin(nodes, i, made)
    modifies {nodes[i]}`own, {nodes[i]}`sgi, {nodes[i]}`outEdges
    ensures selfLink <==> LinksItself(items[i])
    ensures !selfLink ==> CutSoFar(nodes, items, owner, sgi, i + 1) && Apart(nodes, i + 1)
    ensures !selfLink ==> l == linked + set t | t in items[i].targets
    ensures !selfLink ==> fresh(more) && StubsWithin(nodes, i + 1, made + more)
  {
    selfLink, l := OwnAndCutOne(nodes[i], owner, sgi, linked, items[i]);
    more := set s | s in nodes[i].outEdges;
    if !selfLink {
      forall k | 0 <= k < |nodes| && k != i ensures Targets(nodes[k]) == items[k].targets {
        SameTargets(nodes[k]);
      }
      WithinStep(nodes, i, made, more);
    }
  }

  predicate NoneLinksItself(items: seq<Item>, n: nat)
    requires n <= |items|
  {
    forall k :: 0 <= k < n ==> !LinksItself(items[k])
  }

  /** The first loop of "PUT nodes". */
  method OwnAndCut(nodes: seq<GraphNode>, owner: string, sgi: string, ghost items: seq<Item>)
      returns (selfLink: bool, linked: set<string>, ghost made: set<GraphNode?>)
    requires forall i, k :: 0 <= i < k < |nodes| ==> nodes[i] != nodes[k]
    requires CutSoFar(nodes, items, owner, sgi, 0)
    modifies nodes`own, nodes`sgi, nodes`outEdges
    ensures selfLink <==> !NoneLinksItself(items, |items|)
    ensures !selfLink ==> linked == Linked(items)
    ensures !selfLink ==> CutSoFar(nodes, items, owner, sgi, |nodes|) && Apart(nodes, |nodes|)
    ensures !selfLink ==> fresh(made) && StubsWithin(nodes, |nodes|, made)
  {
    linked := {};
    made := {};
    for i := 0 to |nodes|
      invariant CutSoFar(nodes, items, owner, sgi, i) && Apart(nodes, i)
      invariant NoneLinksItself(items, i)
      invariant fresh(made) && StubsWithin(nodes, i, made)
      invariant linked == Linked(items[..i])
    {
      LinkedStep(items, i);
      ghost var more;
      selfLink, linked, more := OwnAndCutAt(nodes, i, owner, sgi, linked, items, made);
      if selfLink {
        return;
      }
      made := made + more;
    }
    selfLink := false;
    assert items[..|items|] == items;
  }

  /** An edge list being collected for a node that already exists. */
  ghost predicate IsEdgeNode(e: GraphNode, uid: string, targets: seq<string>)
    reads e`uid, e`own, e`sgi, e`bits, e`outEdges, e.outEdges`uid
  {
    Came(e, Item(uid, None, None, NO_BITS, targets)) && Filled(e) && OwnStubs(e)
  }

  /** `StoreNodeOutgoingEdgeData`: one more edge under a source, whose node is made at its first edge. */
  method StoreNodeOutgoingEdgeData(oed: map<string, GraphNode>, src: string, dest: string, ghost targets: seq<string>)
      returns (m: map<string, GraphNode>, ghost made: set<GraphNode?>)
    requires src in oed ==> IsEdgeNode(oed[src], src, targets)
    requires src !in oed ==> targets == []
    modifies (if src in oed then {oed[src]} else {})`outEdges
    ensures m.Keys == oed.Keys + {src} && forall k :: k in oed ==> m[k] == oed[k]
    ensures IsEdgeNode(m[src], src, targets + [dest])
    ensures fresh(made) && (src !in oed ==> m[src] in made)
    ensures forall e :: e in m[src].outEdges ==> e in made || (src in oed && e in old(oed[src].outEdges))
  {
    m := oed;
    if src in oed {
      made := AddStub(oed[src], dest, src, targets);
    } else {
      var srcNode;
      srcNode, made := NewEdgeNode(src, dest);
      m := m[src := srcNode];
    }
  }

  /** One more edge of an edge node. */
  method AddStub(n: GraphNode, dest: string, ghost uid: string, ghost targets: seq<string>)
      returns (ghost made: set<GraphNode?>)
    requires IsEdgeNode(n, uid, targets)
    modifies n`outEdges
    ensures IsEdgeNode(n, uid, targets + [dest])
    ensures fresh(made) && forall e :: e in n.outEdges ==> e in made || e in old(n.outEdges)
  {
    var destNode := new GraphNode(dest);
    AppendStub(n, destNode, uid, targets);
    made := {destNode};
  }

  method AppendStub(n: GraphNode, stub: GraphNode, ghost uid: string, ghost targets: seq<string>)
    requires IsEdgeNode(n, uid, targets) && n != stub && stub !in n.outEdges
    modifies n`outEdges
    ensures IsEdgeNode(n, uid, targets + [stub.uid]) && n.outEdges == old(n.outEdges) + [stub]
  {
    n.outEdges := n.outEdges + [stub];
    assert UidsOf(n.outEdges) == targets + [stub.uid];
  }

  /** An edge node with its first edge. */
  method NewEdgeNode(src: string, dest: string) returns (n: GraphNode, ghost made: set<GraphNode?>)
    ensures IsEdgeNode(n, src, [] + [dest])
    ensures fresh(made) && n in made && forall e :: e in n.outEdges ==> e in made
  {
    n := new GraphNode(src);
    var destNode := new GraphNode(dest);
    n.outEdges := [destNode];
    assert UidsOf(n.outEdges) == [] + [dest];
    made := {n, destNode};
  }

  lemma UnlinkedStep(uids: seq<string>, i: nat, linked: set<string>)
    requires i < |uids|
    ensures Unlinked(uids[..i + 1], linked) == Unlinked(uids[..i], linked) + if uids[i] in linked then [] else [uids[i]]
  {
    assert uids[..i + 1][..i] == uids[..i];
  }

  /** At most one edge node, that of the parent, made of new objects. */
  ghost predicate Collected(newEdges: map<string, GraphNode>, parent: string, targets: seq<string>,
                            made: set<GraphNode?>)
    reads if parent in newEdges then {newEdges[parent]} else {}
    reads if parent in newEdges then newEdges[parent].outEdges else []
  {
    if targets == [] then newEdges == map[]
    else
      && newEdges.Keys == {parent} && IsEdgeNode(newEdges[parent], parent, targets)
      && newEdges[parent] in made && EdgesWithin(newEdges[parent].outEdges, made)
  }

  method Collect(newEdges: map<string, GraphNode>, parent: string, dest: string, ghost targets: seq<string>,
                 ghost made: set<GraphNode?>)
      returns (m: map<string, GraphNode>, ghost more: set<GraphNode?>)
    requires Collected(newEdges, parent, targets, made)
    modifies (if parent in newEdges then {newEdges[parent]} else {})`outEdges
    ensures fresh(more) && Collected(m, parent, targets + [dest], made + more)
  {
    m, more := StoreNodeOutgoingEdgeData(newEdges, parent, dest, targets);
    assert m.Keys == {parent};
    assert EdgesWithin(m[parent].outEdges, made + more);
  }

  /** The second loop of "PUT nodes". */
  method LinkUnlinked(newnodes: seq<GraphNode>, parent: string, linked: set<string>, ghost uids: seq<string>,
                      ghost targets: seq<string>)
      returns (newEdges: map<string, GraphNode>, atLeastOne: bool, ghost made: set<GraphNode?>)
    requires uids == Uids(newnodes) && targets == Unlinked(uids, linked)
    ensures atLeastOne <==> targets != []
    ensures fresh(made) && Collected(newEdges, parent, targets, made)
  {
    newEdges := map[];
    made := {};
    atLeastOne := false;
    for i := 0 to |newnodes|
      invariant atLeastOne <==> Unlinked(uids[..i], linked) != []
      invariant fresh(made) && Collected(newEdges, parent, Unlinked(uids[..i], linked), made)
    {
      UnlinkedStep(uids, i, linked);
      var nUid := newnodes[i].uid;
      if nUid in linked {
        continue;
      }
      atLeastOne := true;
      ghost var more;
      newEdges, more := Collect(newEdges, parent, nUid, Unlinked(uids[..i], linked), made);
      made := made + more;
    }
    assert uids[..|newnodes|] == uids;
  }

  /** Where no edge was collected, one to the first node. */
  method AtLeastFirst(newEdges: map<string, GraphNode>, atLeastOne: bool, parent: string, first: string,
                      ghost targets: seq<string>, ghost made: set<GraphNode?>)
      returns (e: GraphNode, ghost more: set<GraphNode?>)
    requires Collected(newEdges, parent, targets, made) && (atLeastOne <==> targets != [])
    ensures IsEdgeNode(e, parent, OrFirst(targets, first))
    ensures fresh(more) && e in made + more && EdgesWithin(e.outEdges, made + more)
  {
    more := {};
    if atLeastOne {
      return newEdges[parent], more;
    }
    var m;
    m, more := Collect(newEdges, parent, first, [], made);
    assert [] + [first] == [first];
    e := m[parent];
  }

  function OrFirst(targets: seq<string>, first: string): seq<string> { if targets == [] then [first] else targets }

  /** The parent's new edges: to the unlinked nodes, or to the first if there is none. */
  method ParentEdges(newnodes: seq<GraphNode>, parent: string, linked: set<string>, ghost uids: seq<string>,
                     ghost targets: seq<string>) returns (e: GraphNode, ghost made: set<GraphNode?>)
    requires newnodes != [] && uids == Uids(newnodes) && targets == Unlinked(uids, linked)
    ensures IsEdgeNode(e, parent, OrFirst(targets, newnodes[0].uid))
    ensures fresh(made) && e in made && EdgesWithin(e.outEdges, made)
  {
    var newEdges, atLeastOne;
    newEdges, atLeastOne, made := LinkUnlinked(newnodes, parent, linked, uids, targets);
    ghost var more;
    e, more := AtLeastFirst(newEdges, atLeastOne, parent, newnodes[0].uid, targets, made);
    made := made + more;
  }

  lemma ItemsWithParent(nodes: seq<GraphNode>, e: GraphNode, items: seq<Item>, parent: string, owner: string,
                        sgi: string)
    requires items != [] && CutSoFar(nodes, items, owner, sgi, |nodes|)
    requires IsEdgeNode(e, parent, Roots(items))
    ensures Items(nodes + [e]) == WithParent(items, parent, owner, sgi)
  {
    var list := nodes + [e];
    forall i | 0 <= i < |list| ensures ItemOf(list[i]) == WithParent(items, parent, owner, sgi)[i] {
      if i < |nodes| {
        assert Cut(nodes[i], Owned(items[i], owner, sgi));
      }
    }
  }

  /** No stub of the list is one of its nodes. */
  ghost predicate StubsAreNotNodes(list: seq<GraphNode>)
    reads list`outEdges
  {
    forall i, k :: 0 <= i < |list| && 0 <= k < |list| ==> list[k] !in list[i].outEdges
  }

  lemma NoAliasingFromParts(list: seq<GraphNode>)
    requires forall i, k :: 0 <= i < k < |list| ==> list[i] != list[k]
    requires forall i :: 0 <= i < |list| ==> OwnStubs(list[i])
    requires StubsAreNotNodes(list) && Apart(list, |list|)
    ensures NoAliasing(list)
  {
    forall i, k | 0 <= i < |list| && 0 <= k < |list| && i != k ensures NoneShared(list[i].outEdges, list[k].outEdges) {
      if k < i { assert NoneShared(list[k].outEdges, list[i].outEdges); }
    }
  }

  lemma ListIsFine(nodes: seq<GraphNode>, e: GraphNode)
    requires forall i, k :: 0 <= i < k < |nodes| ==> nodes[i] != nodes[k]
    requires forall i :: 0 <= i < |nodes| ==> OwnStubs(nodes[i])
    requires StubsAreNotNodes(nodes) && Apart(nodes, |nodes|)
    requires e !in nodes && OwnStubs(e)
    requires forall i :: 0 <= i < |nodes| ==>
      e !in nodes[i].outEdges && nodes[i] !in e.outEdges && NoneShared(nodes[i].outEdges, e.outEdges)
    ensures NoAliasing(nodes + [e])
  {
    NoAliasingFromParts(nodes + [e]);
  }

  lemma CutNodesOwnStubs(nodes: seq<GraphNode>, items: seq<Item>, owner: string, sgi: string)
    requires CutSoFar(nodes, items, owner, sgi, |nodes|)
    ensures Uids(nodes) == ItemUids(items)
    ensures forall k :: 0 <= k < |nodes| ==> OwnStubs(nodes[k])
  {
    assert forall k :: 0 <= k < |nodes| ==> Cut(nodes[k], Owned(items[k], owner, sgi));
  }

  /** The list to upsert: request nodes and new objects only. */
  ghost predicate MadeOf(list: seq<GraphNode>, newnodes: seq<GraphNode>, made: set<GraphNode?>)
    reads list
  {
    (forall n :: n in list ==> n in newnodes || n in made) && Stubs(list) <= made
  }

  lemma MadeOfParts(nodes: seq<GraphNode>, e: GraphNode, made: set<GraphNode?>, more: set<GraphNode?>)
    requires StubsWithin(nodes, |nodes|, made) && e in more && EdgesWithin(e.outEdges, more)
    ensures MadeOf(nodes + [e], nodes, made + more)
  {
    var list := nodes + [e];
    forall k | 0 <= k < |list| ensures EdgesWithin(list[k].outEdges, made + more) {
      if k < |nodes| { assert EdgesWithin(nodes[k].outEdges, made); }
    }
    StubsOfWithin(list, made + more);
  }

  lemma ListIsFineOfMade(nodes: seq<GraphNode>, e: GraphNode, made: set<GraphNode?>, more: set<GraphNode?>)
    requires forall i, k :: 0 <= i < k < |nodes| ==> nodes[i] != nodes[k]
    requires forall i :: 0 <= i < |nodes| ==> OwnStubs(nodes[i])
    requires StubsAreNotNodes(nodes) && Apart(nodes, |nodes|) && StubsWithin(nodes, |nodes|, made)
    requires OwnStubs(e) && e in more && EdgesWithin(e.outEdges, more)
    requires more !! made && forall n :: n in nodes ==> n !in more
    ensures NoAliasing(nodes + [e])
  {
    forall i | 0 <= i < |nodes|
      ensures e !in nodes[i].outEdges && nodes[i] !in e.outEdges && NoneShared(nodes[i].outEdges, e.outEdges)
    {
      assert EdgesWithin(nodes[i].outEdges, made);
    }
    ListIsFine(nodes, e);
  }

  /** The cut nodes followed by the parent's edge node. */
  method AppendParent(nodes: seq<GraphNode>, parent: string, owner: string, sgi: string, linked: set<string>,
                      ghost items: seq<Item>, ghost made: set<GraphNode?>)
      returns (list: seq<GraphNode>, ghost more: set<GraphNode?>)
    requires items != [] && CutSoFar(nodes, items, owner, sgi, |nodes|) && linked == Linked(items)
    requires forall i, k :: 0 <= i < k < |nodes| ==> nodes[i] != nodes[k]
    requires StubsAreNotNodes(nodes) && Apart(nodes, |nodes|) && StubsWithin(nodes, |nodes|, made)
    ensures Items(list) == WithParent(items, parent, owner, sgi)
    ensures NoAliasing(list)
    ensures fresh(more) && MadeOf(list, nodes, made + more) && AllFilled(list)
  {
    CutNodesOwnStubs(nodes, items, owner, sgi);
    var e;
    e, more := ParentEdges(nodes, parent, linked, ItemUids(items), Unlinked(ItemUids(items), linked));
    assert nodes[0].uid == ItemUids(items)[0];
    ListWithParent(nodes, e, items, parent, owner, sgi, made, more);
    list := nodes + [e];
  }

  /** What the edge node adds to the list. */
  lemma ListWithParent(nodes: seq<GraphNode>, e: GraphNode, items: seq<Item>, parent: string, owner: string,
                       sgi: string, made: set<GraphNode?>, more: set<GraphNode?>)
    requires items != [] && CutSoFar(nodes, items, owner, sgi, |nodes|) && IsEdgeNode(e, parent, Roots(items))
    requires forall i, k :: 0 <= i < k < |nodes| ==> nodes[i] != nodes[k]
    requires StubsAreNotNodes(nodes) && Apart(nodes, |nodes|) && StubsWithin(nodes, |nodes|, made)
    requires e in more && EdgesWithin(e.outEdges, more) && more !! made && forall n :: n in nodes ==> n !in more
    ensures Items(nodes + [e]) == WithParent(items, parent, owner, sgi) && NoAliasing(nodes + [e])
    ensures MadeOf(nodes + [e], nodes, made + more) && AllFilled(nodes + [e])
  {
    CutNodesOwnStubs(nodes, items, owner, sgi);
    ListIsFineOfMade(nodes, e, made, more);
    ItemsWithParent(nodes, e, items, parent, owner, sgi);
    MadeOfParts(nodes, e, made, more);
    AllFilledParts(nodes, e, items, parent, owner, sgi);
  }

  ghost predicate AllFilled(list: seq<GraphNode>)
    reads list`outEdges
  {
    forall i :: 0 <= i < |list| ==> Filled(list[i])
  }

  lemma AllFilledParts(nodes: seq<GraphNode>, e: GraphNode, items: seq<Item>, parent: string, owner: string,
                       sgi: string)
    requires items != [] && CutSoFar(nodes, items, owner, sgi, |nodes|) && IsEdgeNode(e, parent, Roots(items))
    ensures AllFilled(nodes + [e])
  {
    var list := nodes + [e];
    forall i | 0 <= i < |list| ensures Filled(list[i]) {
      if i < |nodes| { assert Cut(nodes[i], Owned(items[i], owner, sgi)); }
    }
  }

  /** "PUT nodes" up to the upsert; `None` is the refusal of a self link. */
  method MakeList(newnodes: seq<GraphNode>, parent: string, owner: string, sgi: string, ghost items: seq<Item>)
      returns (list: Option<seq<GraphNode>>, ghost made: set<GraphNode?>)
    requires newnodes != [] && CutSoFar(newnodes, items, owner, sgi, 0)
    requires forall i, k :: 0 <= i < k < |newnodes| ==> newnodes[i] != newnodes[k]
    modifies newnodes`own, newnodes`sgi, newnodes`outEdges
    ensures list.None? <==> !NoneLinksItself(items, |items|)
    ensures list.Some? ==> Items(list.value) == WithParent(items, parent, owner, sgi) && NoAliasing(list.value)
    ensures list.Some? ==> fresh(made) && MadeOf(list.value, newnodes, made) && AllFilled(list.value)
  {
    var selfLink, linked;
    selfLink, linked, made := OwnAndCut(newnodes, owner, sgi, items);
    if selfLink {
      return None, {};
    }
    StubsMadeAreNotNodes(newnodes, made);
    var all, more := AppendParent(newnodes, parent, owner, sgi, linked, items, made);
    made := made + more;
    list := Some(all);
  }

  lemma StubsMadeAreNotNodes(nodes: seq<GraphNode>, made: set<GraphNode?>)
    requires StubsWithin(nodes, |nodes|, made) && forall n :: n in nodes ==> n !in made
    ensures StubsAreNotNodes(nodes)
  {
    forall i, k | 0 <= i < |nodes| && 0 <= k < |nodes| ensures nodes[k] !in nodes[i].outEdges {
      assert EdgesWithin(nodes[i].outEdges, made);
    }
  }

  method UpsertMade(list: seq<GraphNode>, db: Database, md5: string -> string, assign: string -> string,
                    answered: bool, ghost newnodes: seq<GraphNode>, ghost made: set<GraphNode?>,
                    ghost items: seq<Item>)
      returns (r: Response)
    requires NoAliasing(list) && MadeOf(list, newnodes, made) && AllFilled(list)
    requires items == Items(list) && Separates(NamingOf(md5), items)
    modifies db, newnodes, made
    ensures r.Created? <==> answered && ListOk(NamingOf(md5), items)
    ensures !r.Created? ==> unchanged(db)
    ensures r.Created? ==> Upserted(old(db.edges), old(db.store), db, md5, assign, items)
    ensures r.Created? ==> Answers(NamingOf(md5), assign, items, r.nodes)
  {
    AcceptableExactly(list, md5);
    var skipped;
    r, skipped := UpsertNodes(list, db, md5, assign, answered);
  }

  /** The list is written on top of what was stored. */
  predicate Upserted(edges: set<(string, string)>, store: Store, db: Database, md5: string -> string,
                     assign: string -> string, items: seq<Item>)
    reads db
  {
    && db.edges == edges + Written(assign, RenamedItems(NamingOf(md5), items))
    && db.store == PutAll(store, assign, RenamedItems(NamingOf(md5), items))
  }

  /**
   * "PUT nodes" from the validated request on. A self link refuses it; otherwise the request's nodes, with
   * the caller as owner and one share group, and the parent's edge node are upserted together, if their
   * temporary uids are distinct and all defined.
   */
  method PutNodes(newnodes: seq<GraphNode>, parent: string, owner: string, sgi: string, db: Database,
                  md5: string -> string, assign: string -> string, answered: bool, ghost items: seq<Item>)
      returns (r: Option<Response>)
    requires newnodes != [] && CutSoFar(newnodes, items, owner, sgi, 0)
    requires forall i, k :: 0 <= i < k < |newnodes| ==> newnodes[i] != newnodes[k]
    requires Separates(NamingOf(md5), WithParent(items, parent, owner, sgi))
    modifies db, newnodes
    ensures r.None? <==> !NoneLinksItself(items, |items|)
    ensures r.Some? ==>
      (r.value.Created? <==> answered && ListOk(NamingOf(md5), WithParent(items, parent, owner, sgi)))
    ensures r.None? || !r.value.Created? ==> unchanged(db)
    ensures r.Some? && r.value.Created? ==>
      && Upserted(old(db.edges), old(db.store), db, md5, assign, WithParent(items, parent, owner, sgi))
      && Answers(NamingOf(md5), assign, WithParent(items, parent, owner, sgi), r.value.nodes)
  {
    ghost var all := WithParent(items, parent, owner, sgi);
    var list, made := MakeList(newnodes, parent, owner, sgi, items);
    assert unchanged(db);
    if list.None? {
      return None;
    }
    var response := UpsertMade(list.value, db, md5, assign, answered, newnodes, made, all);
    r := Some(response);
  }
}
