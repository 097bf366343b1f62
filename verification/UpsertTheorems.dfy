/** What an accepted upsert amounts to: a copy of the requested graph under a one-to-one renaming. */
module UpsertTheorems {
  import opened Graph
  import opened Text
  import opened Upsert

  /** The uid under which a name of the request ends up in the database. */
  function Final(md5: string -> string, assign: string -> string, uid: string): string {
    Address(assign, NamingOf(md5)(uid))
  }

  /** What a name of the request stands for: a new node by its exact text, an existing one by its trimmed uid. */
  datatype Identity = New(temp: string) | Existing(uid: string)

  function Meant(uid: string): Identity {
    if IsTemp(uid) then New(uid) else Existing(TrimSpace(uid))
  }

  predicate HasName(items: seq<Item>, uid: string) {
    exists i :: 0 <= i < |items| && (items[i].uid == uid || uid in items[i].targets)
  }

  predicate Touches(edges: set<(string, string)>, uid: string) {
    exists e :: e in edges && (e.0 == uid || e.1 == uid)
  }

  /** Dgraph mints a different uid for each blank name, none of them in use or named by the request. */
  ghost predicate MintsFresh(md5: string -> string, assign: string -> string, items: seq<Item>,
                             edges: set<(string, string)>)
  {
    && (forall a, b :: HasName(items, a) && HasName(items, b) && IsTemp(a) && IsTemp(b) && md5(a) != md5(b) ==>
         assign(md5(a)) != assign(md5(b)))
    && (forall a, b :: HasName(items, a) && HasName(items, b) && IsTemp(a) && !IsTemp(b) ==>
         assign(md5(a)) != TrimSpace(b))
    && (forall a :: HasName(items, a) && IsTemp(a) ==> !Touches(edges, assign(md5(a))))
  }

  lemma FinalOf(md5: string -> string, assign: string -> string, uid: string)
    ensures Final(md5, assign, uid) == if IsTemp(uid) then assign(md5(uid)) else TrimSpace(uid)
  {
    var id := UidOrSafeTempUid(md5, uid);
    assert NamingOf(md5)(uid) == id;
  }

  /** A temporary uid anywhere in an accepted request is that of one of its nodes. */
  lemma TempIsNode(md5: string -> string, items: seq<Item>, uid: string) returns (i: nat)
    requires Closed(NamingOf(md5), items) && HasName(items, uid) && IsTemp(uid)
    ensures i < |items| && items[i].uid == uid
  {
    TempIsBlank(md5, uid);
    i := BlankIsNode(NamingOf(md5), items, uid);
  }

  lemma TempIsBlank(md5: string -> string, uid: string)
    requires IsTemp(uid)
    ensures IsBlank(NamingOf(md5)(uid))
  {
    assert NamingOf(md5)(uid) == UidOrSafeTempUid(md5, uid);
  }

  lemma BlankIsNode(safe: Naming, items: seq<Item>, uid: string) returns (i: nat)
    requires Closed(safe, items) && HasName(items, uid) && IsBlank(safe(uid))
    ensures i < |items| && items[i].uid == uid
  {
    var k :| 0 <= k < |items| && (items[k].uid == uid || uid in items[k].targets);
    if items[k].uid == uid {
      i := k;
    } else {
      var j :| 0 <= j < |items[k].targets| && items[k].targets[j] == uid;
      assert uid in ItemUids(items);
      i :| 0 <= i < |items| && ItemUids(items)[i] == uid;
    }
  }

  /** The renaming is one-to-one: two names end up at one uid exactly when they mean the same node. */
  lemma RenamingIsInjective(md5: string -> string, assign: string -> string, items: seq<Item>,
                            edges: set<(string, string)>, a: string, b: string)
    requires Closed(NamingOf(md5), items) && Separates(NamingOf(md5), items) && MintsFresh(md5, assign, items, edges)
    requires HasName(items, a) && HasName(items, b)
    ensures Final(md5, assign, a) == Final(md5, assign, b) <==> Meant(a) == Meant(b)
  {
    FinalOf(md5, assign, a);
    FinalOf(md5, assign, b);
    if IsTemp(a) && IsTemp(b) && md5(a) == md5(b) {
      var i := TempIsNode(md5, items, a);
      var k := TempIsNode(md5, items, b);
      assert NamingOf(md5)(a) == UidOrSafeTempUid(md5, a) && NamingOf(md5)(b) == UidOrSafeTempUid(md5, b);
      BlanksOfSameName(UidOrSafeTempUid(md5, a), UidOrSafeTempUid(md5, b));
      assert !Clash(NamingOf(md5), items[i].uid, items[k].uid);
    }
  }

  /** The request asks for an edge from what `a` means to what `b` means. */
  predicate Requests(items: seq<Item>, a: string, b: string) {
    exists i, j :: 0 <= i < |items| && 0 <= j < |items[i].targets|
                   && Meant(items[i].uid) == Meant(a) && Meant(items[i].targets[j]) == Meant(b)
  }

  /** The edges written between named nodes are exactly the requested ones. */
  lemma StoredEdgesAreRequested(md5: string -> string, assign: string -> string, items: seq<Item>,
                                edges: set<(string, string)>, a: string, b: string)
    requires Closed(NamingOf(md5), items) && Separates(NamingOf(md5), items) && MintsFresh(md5, assign, items, edges)
    requires HasName(items, a) && HasName(items, b)
    ensures (Final(md5, assign, a), Final(md5, assign, b)) in Written(assign, RenamedItems(NamingOf(md5), items))
       <==> Requests(items, a, b)
  {
    var safe := NamingOf(md5);
    var r := RenamedItems(safe, items);
    var e := (Final(md5, assign, a), Final(md5, assign, b));
    if e in Written(assign, r) {
      var i, j :| 0 <= i < |r| && 0 <= j < |r[i].targets|
        && e == (Address(assign, r[i].uid), Address(assign, r[i].targets[j]));
      assert items[i].targets[j] in items[i].targets;
      assert HasName(items, items[i].uid) && HasName(items, items[i].targets[j]);
      RenamingIsInjective(md5, assign, items, edges, items[i].uid, a);
      RenamingIsInjective(md5, assign, items, edges, items[i].targets[j], b);
    }
    if Requests(items, a, b) {
      var i, j :| 0 <= i < |items| && 0 <= j < |items[i].targets| && Meant(items[i].uid) == Meant(a)
        && Meant(items[i].targets[j]) == Meant(b);
      assert items[i].targets[j] in items[i].targets;
      assert HasName(items, items[i].uid) && HasName(items, items[i].targets[j]);
      RenamingIsInjective(md5, assign, items, edges, items[i].uid, a);
      RenamingIsInjective(md5, assign, items, edges, items[i].targets[j], b);
      assert e == (Address(assign, r[i].uid), Address(assign, r[i].targets[j]));
    }
  }

  /** And they are the only edges at a new node: nothing that was stored before touches one. */
  lemma NewNodesHaveOnlyRequestedEdges(md5: string -> string, assign: string -> string, items: seq<Item>,
                                       edges: set<(string, string)>, a: string, e: (string, string))
    requires MintsFresh(md5, assign, items, edges) && HasName(items, a) && IsTemp(a)
    requires e.0 == Final(md5, assign, a) || e.1 == Final(md5, assign, a)
    ensures e in edges + Written(assign, RenamedItems(NamingOf(md5), items))
       <==> e in Written(assign, RenamedItems(NamingOf(md5), items))
  {
    FinalOf(md5, assign, a);
    assert !Touches(edges, assign(md5(a)));
  }

  /** All the uids that the database minted for a mutation. */
  function Minted(assign: string -> string, mutation: seq<Item>): set<string> {
    set b | b in BlankNames(mutation) :: assign(b)
  }

  /** The node told of has this uid, and owner, group and bits of the request's entry for the temporary uid. */
  predicate AsksFor(items: seq<Item>, temp: string, n: Item, uid: string) {
    n.uid == uid && exists i :: 0 <= i < |items| && AsksForAt(items[i], temp, n)
  }

  predicate AsksForAt(item: Item, temp: string, n: Item) {
    item.uid == temp && n.own == item.own && n.sgi == item.sgi && n.bits == item.bits
  }

  /**
   * The answer is a bijection from exactly the temporary uids of the request to exactly the minted uids,
   * and each uid carries the owner, share group and bits that were asked for.
   */
  lemma CreatedIsBijection(md5: string -> string, assign: string -> string, items: seq<Item>,
                           edges: set<(string, string)>, created: map<string, Item>)
    requires Closed(NamingOf(md5), items) && Separates(NamingOf(md5), items) && MintsFresh(md5, assign, items, edges)
    requires Answers(NamingOf(md5), assign, items, created)
    ensures forall temp :: temp in created <==> HasName(items, temp) && IsTemp(temp)
    ensures forall t, u :: t in created && u in created && t != u ==> created[t].uid != created[u].uid
    ensures (set t | t in created :: created[t].uid) == Minted(assign, RenamedItems(NamingOf(md5), items))
    ensures forall t :: t in created ==> AsksFor(items, t, created[t], Final(md5, assign, t))
  {
    var safe := NamingOf(md5);
    forall temp ensures temp in created <==> HasName(items, temp) && IsTemp(temp) {
      CreatedKeys(md5, assign, items, created, temp);
    }
    forall t | t in created
      ensures created[t].uid == Final(md5, assign, t)
      ensures AsksFor(items, t, created[t], Final(md5, assign, t))
    {
      var i :| 0 <= i < |items| && AnswerFor(safe, assign, items[i], t, created[t]);
      assert AsksForAt(items[i], t, created[t]);
    }
    forall t, u | t in created && u in created && t != u ensures created[t].uid != created[u].uid {
      RenamingIsInjective(md5, assign, items, edges, t, u);
    }
    CreatedImage(md5, assign, items, created);
  }

  lemma CreatedKeys(md5: string -> string, assign: string -> string, items: seq<Item>, created: map<string, Item>,
                    temp: string)
    requires Closed(NamingOf(md5), items) && Answers(NamingOf(md5), assign, items, created)
    ensures temp in created <==> HasName(items, temp) && IsTemp(temp)
  {
    assert NamingOf(md5)(temp) == UidOrSafeTempUid(md5, temp);
    if HasName(items, temp) && IsTemp(temp) {
      var i := TempIsNode(md5, items, temp);
      assert ItemUids(items)[i] == temp;
    }
    if temp in created {
      var i :| 0 <= i < |items| && ItemUids(items)[i] == temp;
      assert items[i].uid == temp;
    }
  }

  lemma CreatedImage(md5: string -> string, assign: string -> string, items: seq<Item>, created: map<string, Item>)
    requires Closed(NamingOf(md5), items) && Answers(NamingOf(md5), assign, items, created)
    ensures (set t | t in created :: created[t].uid) == Minted(assign, RenamedItems(NamingOf(md5), items))
  {
    var minted := Minted(assign, RenamedItems(NamingOf(md5), items));
    forall t | t in created ensures created[t].uid in minted {
      AnsweredIsMinted(md5, assign, items, created, t);
    }
    forall uid | uid in minted ensures exists t :: t in created && created[t].uid == uid {
      var b :| b in BlankNames(RenamedItems(NamingOf(md5), items)) && assign(b) == uid;
      var t := MintedIsAnswered(md5, assign, items, created, b);
    }
  }

  lemma AnsweredIsMinted(md5: string -> string, assign: string -> string, items: seq<Item>,
                         created: map<string, Item>, t: string)
    requires Answers(NamingOf(md5), assign, items, created) && t in created
    ensures created[t].uid in Minted(assign, RenamedItems(NamingOf(md5), items))
  {
    var r := RenamedItems(NamingOf(md5), items);
    var i :| 0 <= i < |items| && AnswerFor(NamingOf(md5), assign, items[i], t, created[t]);
    assert r[i].uid == NamingOf(md5)(t);
    assert NameOf(r[i].uid) in BlankNames(r);
  }

  lemma MintedIsAnswered(md5: string -> string, assign: string -> string, items: seq<Item>,
                         created: map<string, Item>, b: string)
      returns (t: string)
    requires Closed(NamingOf(md5), items) && Answers(NamingOf(md5), assign, items, created)
    requires b in BlankNames(RenamedItems(NamingOf(md5), items))
    ensures t in created && created[t].uid == assign(b)
  {
    t := SourceOfName(md5, items, b);
    var i :| 0 <= i < |items| && AnswerFor(NamingOf(md5), assign, items[i], t, created[t]);
  }

  lemma SourceOfName(md5: string -> string, items: seq<Item>, b: string) returns (t: string)
    requires Closed(NamingOf(md5), items) && b in BlankNames(RenamedItems(NamingOf(md5), items))
    ensures t in ItemUids(items) && IsBlank(NamingOf(md5)(t)) && NameOf(NamingOf(md5)(t)) == b
  {
    var safe := NamingOf(md5);
    var r := RenamedItems(safe, items);
    if i :| 0 <= i < |r| && IsBlank(r[i].uid) && NameOf(r[i].uid) == b {
      t := items[i].uid;
      assert ItemUids(items)[i] == t;
    } else {
      var i, j :| 0 <= i < |r| && 0 <= j < |r[i].targets| && IsBlank(r[i].targets[j]) && NameOf(r[i].targets[j]) == b;
      t := items[i].targets[j];
    }
  }

  lemma BlankIsTemp(id: string)
    requires IsBlank(id)
    ensures IsTemp(id)
  {
    OtherStartIsTemp(id);
  }

  /**
   * Why stubs must be objects of their own: a node that is also a stub is renamed a second time, to a
   * name that is not the one its uid was recorded under, unless the digest of its blank name is the
   * digest of its uid.
   */
  lemma SharedStubLosesName(md5: string -> string, uid: string)
    requires IsTemp(uid)
    ensures NamingOf(md5)(NamingOf(md5)(uid)) == NamingOf(md5)(uid) <==> md5(NamingOf(md5)(uid)) == md5(uid)
  {
    var once := UidOrSafeTempUid(md5, uid);
    BlankIsTemp(once);
    var twice := UidOrSafeTempUid(md5, once);
    assert NameOf(once) == md5(uid) && NameOf(twice) == md5(once);
    if md5(once) == md5(uid) { BlanksOfSameName(once, twice); }
  }

  lemma SelfStubAccepted(n: GraphNode)
    requires n.outEdges == [n]
    ensures Acceptable([n])
  {
    var list: seq<GraphNode?> := [n];
    assert list[..0] == [];
    assert UidSet(list[..0]) == {};
    assert NodeOk(list, 0);
    assert list[0].uid in UidSet(list);
    assert StubOk(list, n);
    assert EdgesOk(list, n);
  }

  lemma SelfStubNames(md5: string -> string, uid: string)
    requires IsTemp(uid) && md5(NamingOf(md5)(uid)) != md5(uid)
    ensures var once := NamingOf(md5)(uid);
      var twice := NamingOf(md5)(once);
      IsBlank(once) && IsBlank(twice) && NameOf(once) == md5(uid) && NameOf(twice) == md5(once) && once != uid
  {
    var once := UidOrSafeTempUid(md5, uid);
    BlankIsTemp(once);
    var twice := UidOrSafeTempUid(md5, once);
  }

  lemma OnlyOwnUid(n: GraphNode, m: map<string, GraphNode>)
    requires MapsToNodes(m, Uids([n]), [n])
    ensures forall k :: k in m ==> k == n.uid
  {
    forall k | k in m ensures k == n.uid {
      var i :| IsLast(Uids([n]), i, k) && m[k] == [n][i];
      assert Uids([n])[i] == [n][i].uid;
    }
  }

  /** The two renamings: as a node, which records its name, and as a stub, which records another. */
  method RenameSelfStub(n: GraphNode, safe: Naming) returns (safeToTemp: map<string, string>)
    requires n.outEdges == [n] && IsBlank(safe(n.uid)) && IsBlank(safe(safe(n.uid)))
    requires NameOf(safe(n.uid)) != NameOf(safe(safe(n.uid)))
    modifies n`uid, n`authzData
    ensures n.uid == safe(safe(old(n.uid)))
    ensures Origin(safeToTemp, NameOf(n.uid)) == safe(old(n.uid))
  {
    safeToTemp := MakeSafeUid(n, safe, map[]);
    safeToTemp := RenameStub(n.outEdges[0], safe, safeToTemp);
  }

  /** The last steps: the one uid that comes back leads to a name under which no node was kept. */
  method AnswerSelfStub(n: GraphNode, db: Database, assign: string -> string, safeToTemp: map<string, string>,
                        keyToNode: map<string, GraphNode>, ghost once: string)
      returns (created: map<string, Item>, skipped: bool)
    requires n.outEdges == [n] && IsBlank(n.uid)
    requires Origin(safeToTemp, NameOf(n.uid)) == once && once !in keyToNode
    modifies db
    ensures skipped && created == map[]
  {
    NamesOfSelfStub(n);
    var uids := db.Mutate([ItemOf(n)], assign);
    assert NameOf(n.uid) in Astray(uids.Keys, safeToTemp, keyToNode.Keys);
    created, skipped := MapBack(uids, safeToTemp, keyToNode);
    assert created.Keys == {};
  }

  /** What follows the check. */
  method WriteSelfStub(n: GraphNode, db: Database, safe: Naming, assign: string -> string)
      returns (created: map<string, Item>, skipped: bool)
    requires n.outEdges == [n] && IsBlank(safe(n.uid)) && IsBlank(safe(safe(n.uid))) && safe(n.uid) != n.uid
    requires NameOf(safe(n.uid)) != NameOf(safe(safe(n.uid)))
    modifies db, n
    ensures skipped && created == map[]
    ensures n.uid == safe(safe(old(n.uid)))
  {
    ghost var once := safe(n.uid);
    var keyToNode := MapNodes([n]);
    OnlyOwnUid(n, keyToNode);
    var safeToTemp := RenameSelfStub(n, safe);
    created, skipped := AnswerSelfStub(n, db, assign, safeToTemp, keyToNode, once);
  }

  /**
   * The steps of `UpsertNodes` on one new node that is its own edge stub, for every such node: the list
   * is accepted, the node is renamed twice, the uid that comes back leads to no node, and the branch
   * that should never be taken is taken. The caller is told of no new node at all.
   */
  method UpsertSelfStub(n: GraphNode, db: Database, md5: string -> string, assign: string -> string)
      returns (err: Option<ListError>, created: map<string, Item>, skipped: bool)
    requires n.outEdges == [n] && IsTemp(n.uid) && md5(NamingOf(md5)(n.uid)) != md5(n.uid)
    modifies db, n
    ensures err == None && skipped && created == map[]
    ensures n.uid == NamingOf(md5)(NamingOf(md5)(old(n.uid)))
  {
    SelfStubAccepted(n);
    SelfStubNames(md5, n.uid);
    err := CheckUpsertNodeList([n]);
    created, skipped := WriteSelfStub(n, db, NamingOf(md5), assign);
  }

  lemma NamesOfSelfStub(n: GraphNode)
    requires n.outEdges == [n] && IsBlank(n.uid)
    ensures BlankNames([ItemOf(n)]) == {NameOf(n.uid)}
  {
    var items := [ItemOf(n)];
    assert items[0].uid == n.uid && items[0].targets == [n.uid];
    assert NameOf(items[0].uid) in BlankNames(items);
  }
}
