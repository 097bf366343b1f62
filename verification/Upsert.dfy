/**
 * The upsert of a node list (services/db.go): placeholders are checked, the nodes and their edge stubs
 * are renamed in place to blank nodes, the list is written, and the new uids are mapped back.
 */
module Upsert {
  import opened Graph
  import opened Text
  import opened Uid
  import AuthzData

  /** A node of the request, or an edge stub. `isNew` stands for the type and creation time set on new nodes. */
  class GraphNode {
    var uid: string
    var authzData: string
    var own: Option<string>
    var sgi: Option<string>
    var bits: Bits
    var outEdges: seq<GraphNode?>
    var isNew: bool

    constructor (uid: string)
      ensures this.uid == uid && own == None && sgi == None && bits == NO_BITS && outEdges == [] && !isNew
        && authzData == ""
    {
      this.uid, authzData, own, sgi, bits, outEdges, isNew := uid, "", None, None, NO_BITS, [], false;
    }
  }

  // ------------------------------------------------------------------------------ names

  /** A uid that is not the address of an existing node names a new one. */
  predicate IsTemp(uid: string) { !ValidateUid(TrimSpace(uid)) }

  const BLANK := "_:"

  predicate IsBlank(id: string) { |id| >= 2 && id[0] == '_' && id[1] == ':' }

  /** A blank node's name without its prefix. */
  function NameOf(id: string): string
    requires IsBlank(id)
  {
    id[2..]
  }

  /** `getUidOrSafeTempUid`; `md5` is the hex digest of a text. */
  function UidOrSafeTempUid(md5: string -> string, uid: string): (id: string)
    ensures IsTemp(uid) <==> IsBlank(id)
    ensures IsTemp(uid) ==> NameOf(id) == md5(uid)
    ensures !IsTemp(uid) ==> id == TrimSpace(uid)
  {
    var id := TrimSpace(uid);
    if ValidateUid(id) then
      assert !IsBlank(id) by { ValidIsNotBlank(id); }
      id
    else BLANK + md5(uid)
  }

  /** What a request's uids become, whatever the digest. */
  type Naming = string -> string

  function NamingOf(md5: string -> string): Naming { (uid: string) => UidOrSafeTempUid(md5, uid) }

  /** Only a text that starts like `0x` can be the address of a node. */
  lemma AddressStartsWithZero(id: string)
    requires ValidateUid(id)
    ensures LowerChar(id[0]) == '0'
  {
    var u := ToLower(id);
    assert u[..2][0] == u[0];
  }

  lemma ValidIsNotBlank(id: string)
    requires ValidateUid(id)
    ensures !IsBlank(id)
  {
    AddressStartsWithZero(id);
  }

  /** A uid that starts otherwise names a new node. */
  lemma OtherStartIsTemp(id: string)
    requires id != "" && !IsSpace(id[0]) && LowerChar(id[0]) != '0'
    ensures IsTemp(id)
  {
    var t := TrimSpace(id);
    assert TrimLeft(id) == id;
    if t != "" {
      assert t[0] == id[0];
    }
    if ValidateUid(t) {
      AddressStartsWithZero(t);
    }
  }

  // ------------------------------------------------------------------------------ the request

  ghost function Stubs(list: seq<GraphNode?>): set<GraphNode?>
    reads list
  {
    set i, j | 0 <= i < |list| && list[i] != null && 0 <= j < |list[i].outEdges| :: list[i].outEdges[j]
  }

  ghost function UidSet(list: seq<GraphNode?>): set<string>
    reads list
  {
    set i | 0 <= i < |list| && list[i] != null :: list[i].uid
  }

  /** Neither null nor a temporary uid that an earlier node has. */
  ghost predicate NodeOk(list: seq<GraphNode?>, i: int)
    requires 0 <= i < |list|
    reads list
  {
    list[i] != null && (IsTemp(list[i].uid) ==> list[i].uid !in UidSet(list[..i]))
  }

  /** Neither null nor a temporary uid that no node has. */
  ghost predicate StubOk(list: seq<GraphNode?>, e: GraphNode?)
    reads list, e
  {
    e != null && (IsTemp(e.uid) ==> e.uid in UidSet(list))
  }

  ghost predicate EdgesOk(list: seq<GraphNode?>, n: GraphNode?)
    reads list, n, if n == null then [] else n.outEdges
  {
    n != null && forall j :: 0 <= j < |n.outEdges| ==> StubOk(list, n.outEdges[j])
  }

  ghost predicate NodesOk(list: seq<GraphNode?>, n: nat)
    requires n <= |list|
    reads list
  {
    forall i :: 0 <= i < n ==> NodeOk(list, i)
  }

  lemma NodeCheck(list: seq<GraphNode?>, i: nat, defined: set<string>)
    requires i < |list| && defined == UidSet(list[..i]) && NodesOk(list, i)
    ensures NodesOk(list, i + 1) <==> NodeError(list[i], defined).None?
    ensures !NodesOk(list, i + 1) ==> !NodesOk(list, |list|)
    ensures list[i] != null ==> UidSet(list[..i + 1]) == defined + {list[i].uid}
    ensures NodeError(list[i], defined).Some? ==> FirstBadNode(list, i, NodeError(list[i], defined).value)
    ensures NodeError(list[i], defined).None? ==> list[i] != null
  {
    NodesStep(list, i);
    NodeErrorExactly(list, i, defined);
    if list[i] != null { UidSetStep(list, i); }
  }

  lemma NodesStep(list: seq<GraphNode?>, i: nat)
    requires i < |list| && NodesOk(list, i)
    ensures NodesOk(list, i + 1) <==> NodeOk(list, i)
    ensures !NodeOk(list, i) ==> !NodesOk(list, |list|)
  {
  }

  lemma NodeErrorExactly(list: seq<GraphNode?>, i: nat, defined: set<string>)
    requires i < |list| && defined == UidSet(list[..i])
    ensures NodeOk(list, i) <==> NodeError(list[i], defined).None?
  {
  }

  ghost predicate AllEdgesOk(list: seq<GraphNode?>)
    reads list, Stubs(list)
  {
    forall i :: 0 <= i < |list| ==> EdgesOk(list, list[i])
  }

  /** What `checkUpsertNodeList` lets through. */
  ghost predicate Acceptable(list: seq<GraphNode?>)
    reads list, Stubs(list)
  {
    NodesOk(list, |list|) && AllEdgesOk(list)
  }

  /** Why a list is refused. */
  datatype ListError = NullNode | DuplicateTemp(uid: string) | NullStub | UndefinedTemp(uid: string)

  /** What is wrong with an entry, given the uids before it. */
  function NodeError(n: GraphNode?, earlier: set<string>): Option<ListError>
    reads n
  {
    if n == null then Some(NullNode)
    else if IsTemp(n.uid) && n.uid in earlier then Some(DuplicateTemp(n.uid))
    else None
  }

  /** What is wrong with a stub, given the uids of all nodes. */
  function StubError(e: GraphNode?, defined: set<string>): Option<ListError>
    reads e
  {
    if e == null then Some(NullStub)
    else if IsTemp(e.uid) && e.uid !in defined then Some(UndefinedTemp(e.uid))
    else None
  }

  /** The entry is the first that is wrong, and this is what is wrong with it. */
  ghost predicate FirstBadNode(list: seq<GraphNode?>, i: nat, err: ListError)
    requires i < |list|
    reads list
  {
    NodesOk(list, i) && NodeError(list[i], UidSet(list[..i])) == Some(err)
  }

  /** The stub is the first that is wrong, and this is what is wrong with it. */
  ghost predicate FirstBadStub(list: seq<GraphNode?>, i: nat, j: nat, err: ListError)
    requires i < |list|
    reads list, Stubs(list)
  {
    && (forall k :: 0 <= k < i ==> EdgesOk(list, list[k]))
    && list[i] != null && j < |list[i].outEdges|
    && (forall l :: 0 <= l < j ==> StubOk(list, list[i].outEdges[l]))
    && StubError(list[i].outEdges[j], UidSet(list)) == Some(err)
  }

  /** Nodes are looked at before stubs, each in order, and the first thing wrong is told. */
  ghost predicate FirstError(list: seq<GraphNode?>, err: ListError)
    reads list, Stubs(list)
  {
    || (exists i: nat :: i < |list| && FirstBadNode(list, i, err))
    || (NodesOk(list, |list|) && exists i: nat, j: nat :: i < |list| && FirstBadStub(list, i, j, err))
  }

  method CheckUpsertNodeList(list: seq<GraphNode?>) returns (err: Option<ListError>)
    ensures err.None? <==> Acceptable(list)
    ensures err.Some? ==> FirstError(list, err.value)
  {
    var defined;
    err, defined := CheckNodes(list);
    if err.None? {
      ghost var i, j;
      err, i, j := CheckEdges(list, defined);
    }
  }

  /** The first loop: no null entry and no temporary uid twice. */
  method CheckNodes(list: seq<GraphNode?>) returns (err: Option<ListError>, defined: set<string>)
    ensures err.None? <==> NodesOk(list, |list|)
    ensures err.None? ==> forall i :: 0 <= i < |list| ==> list[i] != null
    ensures err.None? ==> defined == UidSet(list)
    ensures err.Some? ==> exists i: nat :: i < |list| && FirstBadNode(list, i, err.value)
  {
    defined := {};
    for i := 0 to |list|
      invariant NodesOk(list, i)
      invariant defined == UidSet(list[..i])
    {
      NodeCheck(list, i, defined);
      err := NodeError(list[i], defined);
      if err.Some? {
        return;
      }
      defined := defined + {list[i].uid};
    }
    err := None;
    assert list[..|list|] == list;
    NodesAreThere(list);
  }

  lemma NodesAreThere(list: seq<GraphNode?>)
    ensures NodesOk(list, |list|) ==> forall i :: 0 <= i < |list| ==> list[i] != null
  {
    if NodesOk(list, |list|) {
      forall i | 0 <= i < |list| ensures list[i] != null {
        assert NodeOk(list, i);
      }
    }
  }

  /** The second loop: no null stub and no temporary uid that is not defined. */
  method CheckEdges(list: seq<GraphNode?>, defined: set<string>)
      returns (err: Option<ListError>, ghost badNode: nat, ghost badStub: nat)
    requires forall i :: 0 <= i < |list| ==> list[i] != null
    requires defined == UidSet(list)
    ensures err.None? <==> AllEdgesOk(list)
    ensures err.Some? ==> badNode < |list| && FirstBadStub(list, badNode, badStub, err.value)
  {
    badNode, badStub := 0, 0;
    for i := 0 to |list|
      invariant EdgesOkUpTo(list, i)
    {
      err, badStub := CheckStubs(list, i, defined);
      if err.Some? {
        badNode := i;
        return;
      }
    }
    err := None;
  }

  /** The inner loop, on the stubs of one node. */
  method CheckStubs(list: seq<GraphNode?>, i: nat, defined: set<string>)
      returns (err: Option<ListError>, ghost bad: nat)
    requires i < |list| && list[i] != null && EdgesOkUpTo(list, i) && defined == UidSet(list)
    ensures err.None? ==> EdgesOkUpTo(list, i + 1)
    ensures err.Some? ==> FirstBadStub(list, i, bad, err.value) && !AllEdgesOk(list)
  {
    var edges := list[i].outEdges;
    bad := 0;
    for j := 0 to |edges|
      invariant StubsOkUpTo(list, i, j)
    {
      StubStep(list, i, j, defined);
      err := StubError(edges[j], defined);
      if err.Some? {
        bad := j;
        return;
      }
    }
    assert EdgesOk(list, list[i]);
    err := None;
  }

  ghost predicate EdgesOkUpTo(list: seq<GraphNode?>, n: nat)
    requires n <= |list|
    reads list, Stubs(list)
  {
    forall k :: 0 <= k < n ==> EdgesOk(list, list[k])
  }

  ghost predicate StubsOkUpTo(list: seq<GraphNode?>, i: nat, n: nat)
    requires i < |list|
    reads list, Stubs(list)
  {
    list[i] != null && n <= |list[i].outEdges| && forall l :: 0 <= l < n ==> StubOk(list, list[i].outEdges[l])
  }

  lemma StubStep(list: seq<GraphNode?>, i: nat, j: nat, defined: set<string>)
    requires defined == UidSet(list)
    requires i < |list| && EdgesOkUpTo(list, i) && StubsOkUpTo(list, i, j) && j < |list[i].outEdges|
    ensures StubError(list[i].outEdges[j], defined).None? ==> StubsOkUpTo(list, i, j + 1)
    ensures StubError(list[i].outEdges[j], defined).Some? ==>
      !AllEdgesOk(list) && FirstBadStub(list, i, j, StubError(list[i].outEdges[j], defined).value)
  {
    StubCheck(list, list[i].outEdges[j], defined);
    if StubError(list[i].outEdges[j], defined).Some? { assert !EdgesOk(list, list[i]); }
  }

  lemma StubCheck(list: seq<GraphNode?>, e: GraphNode?, defined: set<string>)
    requires defined == UidSet(list)
    ensures StubOk(list, e) <==> StubError(e, defined).None?
  {
  }

  lemma UidSetStep(list: seq<GraphNode?>, i: nat)
    requires i < |list| && list[i] != null
    ensures UidSet(list[..i + 1]) == UidSet(list[..i]) + {list[i].uid}
  {
    var front, next := list[..i], list[..i + 1];
    assert next[i].uid in UidSet(next);
    forall k | 0 <= k < i && front[k] != null ensures front[k].uid in UidSet(next) {
      assert next[k] == front[k];
    }
    forall k | 0 <= k < |next| && next[k] != null ensures next[k].uid in UidSet(front) + {list[i].uid} {
      if k < i { assert front[k] == next[k]; }
    }
  }

  // --------------------------------------------------------------------------- renaming in place

  /** The stubs of a node are different objects, and not the node. */
  ghost predicate OwnStubs(n: GraphNode)
    reads n`outEdges
  {
    && n !in n.outEdges
    && forall j, l :: 0 <= j < l < |n.outEdges| && n.outEdges[j] != null ==> n.outEdges[j] != n.outEdges[l]
  }

  /** The objects of a decoded request are all different: no stub is a node or another stub. */
  ghost predicate NoAliasing(list: seq<GraphNode?>)
    reads list`outEdges
  {
    && (forall i, k :: 0 <= i < k < |list| && list[i] != null ==> list[i] != list[k])
    && (forall i :: 0 <= i < |list| && list[i] != null ==> OwnStubs(list[i]))
    && (forall i, k :: 0 <= i < |list| && 0 <= k < |list| && list[i] != null && list[k] != null ==>
         list[k] !in list[i].outEdges)
    && (forall i, k :: 0 <= i < |list| && 0 <= k < |list| && i != k && list[i] != null && list[k] != null ==>
         NoneShared(list[i].outEdges, list[k].outEdges))
  }

  ghost predicate NoneShared(a: seq<GraphNode?>, b: seq<GraphNode?>) {
    forall e :: e in a && e != null ==> e !in b
  }

  ghost function Uids(nodes: seq<GraphNode>): (u: seq<string>)
    reads nodes
    ensures |u| == |nodes|
  {
    seq(|nodes|, i requires 0 <= i < |nodes| reads nodes => nodes[i].uid)
  }

  ghost predicate Filled(n: GraphNode)
    reads n`outEdges
  {
    forall j :: 0 <= j < |n.outEdges| ==> n.outEdges[j] != null
  }

  function UidOf(e: GraphNode?): string
    reads (if e == null then {} else {e})`uid
  {
    if e == null then "" else e.uid
  }

  function UidsOf(stubs: seq<GraphNode?>): (t: seq<string>)
    reads stubs`uid
    ensures |t| == |stubs|
    ensures forall j :: 0 <= j < |stubs| ==> t[j] == UidOf(stubs[j])
  {
    if stubs == [] then [] else UidsOf(stubs[..|stubs| - 1]) + [UidOf(stubs[|stubs| - 1])]
  }

  /** The uids of a node's edge stubs. */
  function Targets(n: GraphNode): (t: seq<string>)
    reads n`outEdges, n.outEdges`uid
    ensures |t| == |n.outEdges|
    ensures forall j :: 0 <= j < |n.outEdges| ==> t[j] == UidOf(n.outEdges[j])
  {
    UidsOf(n.outEdges)
  }

  function RenamedAll(safe: Naming, uids: seq<string>): (r: seq<string>)
    ensures |r| == |uids|
    ensures forall i :: 0 <= i < |uids| ==> r[i] == safe(uids[i])
  {
    seq(|uids|, i requires 0 <= i < |uids| => safe(uids[i]))
  }

  /** The map from blank names back to the temporary uids of the request. */
  ghost predicate Restores(m: map<string, string>, uids: seq<string>, safe: Naming) {
    && (forall i :: 0 <= i < |uids| && IsBlank(safe(uids[i])) ==> NameOf(safe(uids[i])) in m)
    && (forall key :: key in m ==> m[key] in uids && IsBlank(safe(m[key])) && NameOf(safe(m[key])) == key)
  }

  lemma RestoresStep(m: map<string, string>, uids: seq<string>, i: nat, safe: Naming)
    requires i < |uids| && Restores(m, uids[..i], safe)
    ensures Restores(if IsBlank(safe(uids[i])) then m[NameOf(safe(uids[i])) := uids[i]] else m, uids[..i + 1], safe)
  {
    var next := if IsBlank(safe(uids[i])) then m[NameOf(safe(uids[i])) := uids[i]] else m;
    var front := uids[..i + 1];
    assert front == uids[..i] + [uids[i]];
    assert front[i] == uids[i];
    forall k | 0 <= k < i + 1 && IsBlank(safe(front[k])) ensures NameOf(safe(front[k])) in next {
      if k < i { assert uids[..i][k] == front[k]; }
    }
  }

  /** `makeSafeUids`. */
  method MakeSafeUids(nodes: seq<GraphNode>, safe: Naming) returns (safeToTemp: map<string, string>)
    requires forall i, k :: 0 <= i < k < |nodes| ==> nodes[i] != nodes[k]
    modifies nodes`uid
    ensures Uids(nodes) == RenamedAll(safe, old(Uids(nodes)))
    ensures Restores(safeToTemp, old(Uids(nodes)), safe)
  {
    ghost var uids := Uids(nodes);
    safeToTemp := map[];
    for i := 0 to |nodes|
      invariant forall k :: 0 <= k < i ==> nodes[k].uid == safe(uids[k])
      invariant forall k :: i <= k < |nodes| ==> nodes[k].uid == uids[k]
      invariant Restores(safeToTemp, uids[..i], safe)
    {
      RestoresStep(safeToTemp, uids, i, safe);
      safeToTemp := MakeSafeUid(nodes[i], safe, safeToTemp);
    }
    assert uids[..|nodes|] == uids;
  }

  /** `makeSafeUid`. */
  method MakeSafeUid(n: GraphNode, safe: Naming, safeToTemp: map<string, string>) returns (m: map<string, string>)
    modifies n`uid
    ensures n.uid == safe(old(n.uid))
    ensures m == if IsBlank(n.uid) then safeToTemp[NameOf(n.uid) := old(n.uid)] else safeToTemp
  {
    var nUid := n.uid;
    var uidOrSafeUid := safe(nUid);
    m := safeToTemp;
    if IsBlank(uidOrSafeUid) {
      m := m[NameOf(uidOrSafeUid) := nUid];
    }
    n.uid := uidOrSafeUid;
  }

  // ---------------------------------------------------------------------------- the database

  /** A node as it is written to JSON for the database. */
  datatype Item = Item(uid: string, own: Option<string>, sgi: Option<string>, bits: Bits, targets: seq<string>)

  function ItemOf(n: GraphNode?): Item
    reads n, if n == null then [] else n.outEdges
  {
    if n == null then Item("", None, None, NO_BITS, []) else Item(n.uid, n.own, n.sgi, n.bits, Targets(n))
  }

  function Items(list: seq<GraphNode?>): (items: seq<Item>)
    reads list, set i, j | 0 <= i < |list| && list[i] != null && 0 <= j < |list[i].outEdges| :: list[i].outEdges[j]
    ensures |items| == |list|
    ensures forall i :: 0 <= i < |list| ==> items[i] == ItemOf(list[i])
  {
    seq(|list|, i requires 0 <= i < |list|
      reads list, if 0 <= i < |list| && list[i] != null then list[i].outEdges else [] => ItemOf(list[i]))
  }

  function Renamed(safe: Naming, item: Item): Item {
    item.(uid := safe(item.uid), targets := RenamedAll(safe, item.targets))
  }

  /** The uid a name in a mutation stands for: `assign` is what Dgraph mints for blank names. */
  function Address(assign: string -> string, id: string): string {
    if IsBlank(id) then assign(NameOf(id)) else id
  }

  function Written(assign: string -> string, items: seq<Item>): set<(string, string)> {
    set i, j | 0 <= i < |items| && 0 <= j < |items[i].targets|
      :: (Address(assign, items[i].uid), Address(assign, items[i].targets[j]))
  }

  function BlankNames(items: seq<Item>): set<string> {
    (set i | 0 <= i < |items| && IsBlank(items[i].uid) :: NameOf(items[i].uid))
    + set i, j | 0 <= i < |items| && 0 <= j < |items[i].targets| && IsBlank(items[i].targets[j])
        :: NameOf(items[i].targets[j])
  }

  type Store = map<string, AuthzData.Authz>

  function Or<T>(a: Option<T>, b: Option<T>): Option<T> { if a.Some? then a else b }

  /** Fields that are not nil overwrite, the others stay. */
  function Merged(before: AuthzData.Authz, item: Item): AuthzData.Authz {
    var b, c := before.bits, item.bits;
    before.(own := Or(item.own, before.own), sgi := Or(item.sgi, before.sgi),
          bits := Bits(Or(c.r, b.r), Or(c.w, b.w), Or(c.o, b.o), Or(c.i, b.i), Or(c.d, b.d), Or(c.s, b.s)))
  }

  /** One entry of a mutation, as far as authz fields go. */
  function Put(store: Store, assign: string -> string, item: Item): Store {
    var uid := Address(assign, item.uid);
    store[uid := Merged(if uid in store then store[uid] else AuthzData.Authz(uid, None, None, NO_BITS), item)]
  }

  function PutAll(store: Store, assign: string -> string, items: seq<Item>): Store {
    if items == [] then store else Put(PutAll(store, assign, items[..|items| - 1]), assign, items[|items| - 1])
  }

  /** Dgraph, as far as edges and authz fields go. */
  class Database {
    var edges: set<(string, string)>
    var store: Store

    /** Writes a node list; the answer maps each blank name in it to its new uid. */
    method Mutate(items: seq<Item>, assign: string -> string) returns (uids: map<string, string>)
      modifies this
      ensures edges == old(edges) + Written(assign, items)
      ensures store == PutAll(old(store), assign, items)
      ensures uids.Keys == BlankNames(items)
      ensures forall b :: b in uids ==> uids[b] == assign(b)
    {
      edges := edges + Written(assign, items);
      store := PutAll(store, assign, items);
      uids := map b | b in BlankNames(items) :: assign(b);
    }
  }

  // ------------------------------------------------------------------------------- the upsert

  /** The node holds the request's entry, its stubs renamed or not yet. */
  predicate StandsRenamed(n: GraphNode, safe: Naming, item: Item, done: bool)
    reads n`uid, n`own, n`sgi, n`bits, n`outEdges, n.outEdges`uid
  {
    && n.uid == safe(item.uid) && n.own == item.own && n.sgi == item.sgi && n.bits == item.bits
    && Targets(n) == if done then RenamedAll(safe, item.targets) else item.targets
  }

  ghost predicate HoldAll(nodes: seq<GraphNode>, safe: Naming, items: seq<Item>, done: nat)
    reads nodes, Stubs(nodes)
  {
    |items| == |nodes| && forall k :: 0 <= k < |nodes| ==> StandsRenamed(nodes[k], safe, items[k], k < done)
  }

  /** Every temporary uid in a stub already has its name in the map. */
  ghost predicate Covers(m: map<string, string>, safe: Naming, targets: seq<string>) {
    forall j :: 0 <= j < |targets| && IsBlank(safe(targets[j])) ==> NameOf(safe(targets[j])) in m
  }

  /** One stub renamed, its name recorded unless it already is. */
  method RenameStub(e: GraphNode, safe: Naming, safeToTemp: map<string, string>) returns (m: map<string, string>)
    modifies e`uid, e`authzData
    ensures e.uid == safe(old(e.uid)) && e.authzData == ""
    ensures m == if IsBlank(e.uid) && NameOf(e.uid) !in safeToTemp then safeToTemp[NameOf(e.uid) := old(e.uid)]
                 else safeToTemp
  {
    m := safeToTemp;
    var uidOrSafeUid := safe(e.uid);
    if IsBlank(uidOrSafeUid) {
      var tempKey := NameOf(uidOrSafeUid);
      if tempKey !in m {
        m := m[tempKey := e.uid];
      }
    }
    e.uid := uidOrSafeUid;
    e.authzData := "";
  }

  /**
   * The edge loop of `UpsertNodes` on one node. Since every temporary uid of a stub is also a node's, no
   * name is added to the map.
   */
  method RenameStubs(n: GraphNode, safe: Naming, safeToTemp: map<string, string>) returns (m: map<string, string>)
    requires Filled(n) && OwnStubs(n) && Covers(safeToTemp, safe, Targets(n))
    modifies n.outEdges`uid, n.outEdges`authzData
    ensures Targets(n) == RenamedAll(safe, old(Targets(n))) && m == safeToTemp
    ensures forall j :: 0 <= j < |n.outEdges| ==> n.outEdges[j].authzData == ""
  {
    m := safeToTemp;
    ghost var before := Targets(n);
    for j := 0 to |n.outEdges|
      invariant m == safeToTemp
      invariant forall l :: 0 <= l < j ==> n.outEdges[l].uid == safe(before[l]) && n.outEdges[l].authzData == ""
      invariant forall l :: j <= l < |n.outEdges| ==> n.outEdges[l].uid == before[l]
    {
      m := RenameStub(n.outEdges[j], safe, m);
    }
    assert Targets(n) == RenamedAll(safe, before);
  }

  /** The fields that an upsert sets on the node itself. */
  method Mark(n: GraphNode, ghost targets: seq<string>)
    requires Targets(n) == targets
    modifies n`authzData, n`isNew
    ensures Targets(n) == targets && n.authzData == "" && (IsBlank(n.uid) ==> n.isNew)
  {
    if IsBlank(n.uid) {
      n.isNew := true;
    }
    n.authzData := "";
  }

  /** The body of the main loop of `UpsertNodes`. */
  method RenameNode(n: GraphNode, safe: Naming, safeToTemp: map<string, string>, ghost item: Item)
      returns (m: map<string, string>)
    requires Filled(n) && OwnStubs(n)
    requires StandsRenamed(n, safe, item, false) && Covers(safeToTemp, safe, item.targets)
    modifies n`authzData, n`isNew, n.outEdges`uid, n.outEdges`authzData
    ensures StandsRenamed(n, safe, item, true) && m == safeToTemp
    ensures IsBlank(n.uid) ==> n.isNew
  {
    m := RenameStubs(n, safe, safeToTemp);
    Mark(n, RenamedAll(safe, item.targets));
  }

  twostate lemma SameTargets(n: GraphNode)
    requires n.outEdges == old(n.outEdges)
    requires forall e :: e in n.outEdges && e != null ==> e.uid == old(e.uid)
    ensures Targets(n) == old(Targets(n))
  {
    forall j | 0 <= j < |n.outEdges| ensures UidOf(n.outEdges[j]) == old(UidOf(n.outEdges[j])) {
      assert n.outEdges[j] in n.outEdges;
    }
  }

  /** One turn of the main loop of `UpsertNodes`: no other node and no other node's stub is touched. */
  method RenameAt(nodes: seq<GraphNode>, i: nat, safe: Naming, safeToTemp: map<string, string>, ghost items: seq<Item>)
      returns (m: map<string, string>)
    requires i < |nodes| && NoAliasing(nodes) && Filled(nodes[i])
    requires HoldAll(nodes, safe, items, i) && Covers(safeToTemp, safe, items[i].targets)
    modifies {nodes[i]}`authzData, {nodes[i]}`isNew, nodes[i].outEdges`uid, nodes[i].outEdges`authzData
    ensures HoldAll(nodes, safe, items, i + 1) && m == safeToTemp
  {
    assert StandsRenamed(nodes[i], safe, items[i], false);
    assert forall k :: 0 <= k < |nodes| && k != i ==> NoneShared(nodes[i].outEdges, nodes[k].outEdges);
    m := RenameNode(nodes[i], safe, safeToTemp, items[i]);
    forall k | 0 <= k < |nodes| ensures StandsRenamed(nodes[k], safe, items[k], k < i + 1) {
      if k != i {
        assert old(StandsRenamed(nodes[k], safe, items[k], k < i));
        SameTargets(nodes[k]);
      }
    }
  }

  /** The main loop of `UpsertNodes`. */
  method RenameNodes(nodes: seq<GraphNode>, safe: Naming, safeToTemp: map<string, string>, ghost items: seq<Item>)
      returns (m: map<string, string>)
    requires NoAliasing(nodes) && forall k :: 0 <= k < |nodes| ==> Filled(nodes[k])
    requires HoldAll(nodes, safe, items, 0)
    requires forall k :: 0 <= k < |items| ==> Covers(safeToTemp, safe, items[k].targets)
    modifies nodes`authzData, nodes`isNew, Stubs(nodes)`uid, Stubs(nodes)`authzData
    ensures HoldAll(nodes, safe, items, |nodes|) && m == safeToTemp
  {
    m := safeToTemp;
    for i := 0 to |nodes|
      invariant m == safeToTemp
      invariant HoldAll(nodes, safe, items, i)
    {
      m := RenameAt(nodes, i, safe, m, items);
    }
  }

  datatype Response = Created(nodes: map<string, Item>) | Refused(error: ListError) | Failed

  /** The last entry of a list with a given uid: the one a map from uids to nodes ends up with. */
  predicate IsLast(uids: seq<string>, i: int, uid: string) {
    0 <= i < |uids| && uids[i] == uid && forall k :: i < k < |uids| ==> uids[k] != uid
  }

  ghost predicate MapsToNodes(m: map<string, GraphNode>, uids: seq<string>, nodes: seq<GraphNode>) {
    && |uids| <= |nodes|
    && (forall i :: 0 <= i < |uids| ==> uids[i] in m)
    && (forall uid :: uid in m ==> exists i :: IsLast(uids, i, uid) && m[uid] == nodes[i])
  }

  /** `originalKeyToNodeMap`. */
  method MapNodes(nodes: seq<GraphNode>) returns (m: map<string, GraphNode>)
    ensures MapsToNodes(m, Uids(nodes), nodes)
  {
    m := map[];
    ghost var uids := Uids(nodes);
    for i := 0 to |nodes|
      invariant MapsToNodes(m, uids[..i], nodes)
    {
      MapsStep(m, uids, nodes, i);
      m := m[nodes[i].uid := nodes[i]];
    }
    assert uids[..|nodes|] == uids;
  }

  lemma MapsStep(m: map<string, GraphNode>, uids: seq<string>, nodes: seq<GraphNode>, i: nat)
    requires i < |uids| == |nodes| && MapsToNodes(m, uids[..i], nodes)
    ensures MapsToNodes(m[uids[i] := nodes[i]], uids[..i + 1], nodes)
  {
    var next := m[uids[i] := nodes[i]];
    var front := uids[..i + 1];
    forall k | 0 <= k < |front| ensures front[k] in next {
      if k < i { assert uids[..i][k] == front[k]; }
    }
    forall uid | uid in next ensures exists k :: IsLast(front, k, uid) && next[uid] == nodes[k] {
      if uid == uids[i] {
        assert IsLast(front, i, uid);
      } else {
        var k :| IsLast(uids[..i], k, uid) && m[uid] == nodes[k];
        forall l | k < l < |front| ensures front[l] != uid {
          if l < i { assert uids[..i][l] == front[l]; }
        }
        assert front[k] == uids[..i][k];
        assert IsLast(front, k, uid);
      }
    }
  }

  /** `NewGraphNodeJustOwnerAndPerms` with a new uid: what the caller is told of a node. */
  function JustOwnerAndPerms(uid: string, item: Item): Item { item.(uid := uid, targets := []) }

  ghost predicate KeepFields(nodes: seq<GraphNode>, items: seq<Item>)
    reads nodes`own, nodes`sgi, nodes`bits
  {
    |items| == |nodes| && forall i :: 0 <= i < |nodes| ==>
      nodes[i].own == items[i].own && nodes[i].sgi == items[i].sgi && nodes[i].bits == items[i].bits
  }

  /** What is told under a temporary uid describes the entry of the request with that uid. */
  ghost predicate StandsForSome(safe: Naming, uids: map<string, string>, items: seq<Item>, temp: string, n: Item) {
    exists i :: 0 <= i < |items| && StandsFor(safe, uids, items[i], temp, n)
  }

  predicate StandsFor(safe: Naming, uids: map<string, string>, item: Item, temp: string, n: Item) {
    && item.uid == temp && IsBlank(safe(temp)) && NameOf(safe(temp)) in uids
    && n == JustOwnerAndPerms(uids[NameOf(safe(temp))], item)
  }

  function ItemUids(items: seq<Item>): (u: seq<string>)
    ensures |u| == |items| && forall i :: 0 <= i < |items| ==> u[i] == items[i].uid
  {
    seq(|items|, i requires 0 <= i < |items| => items[i].uid)
  }

  ghost predicate AllStand(safe: Naming, uids: map<string, string>, items: seq<Item>, created: map<string, Item>) {
    forall temp :: temp in created ==> StandsForSome(safe, uids, items, temp, created[temp])
  }

  predicate SameFields(n: GraphNode, item: Item)
    reads n
  {
    n.own == item.own && n.sgi == item.sgi && n.bits == item.bits
  }

  /** A name leads back to an entry of the request, and the node kept for its uid still has its fields. */
  ghost predicate Traceable(key: string, safeToTemp: map<string, string>, keyToNode: map<string, GraphNode>,
                            safe: Naming, items: seq<Item>)
    reads keyToNode.Values
  {
    && key in safeToTemp && safeToTemp[key] in keyToNode
    && IsBlank(safe(safeToTemp[key])) && NameOf(safe(safeToTemp[key])) == key
    && exists i :: 0 <= i < |items| && items[i].uid == safeToTemp[key]
                   && SameFields(keyToNode[safeToTemp[key]], items[i])
  }

  lemma EveryNameIsTraceable(safeToTemp: map<string, string>, keyToNode: map<string, GraphNode>,
                             nodes: seq<GraphNode>, safe: Naming, items: seq<Item>, key: string)
    requires Restores(safeToTemp, ItemUids(items), safe) && key in safeToTemp
    requires MapsToNodes(keyToNode, ItemUids(items), nodes) && KeepFields(nodes, items)
    ensures Traceable(key, safeToTemp, keyToNode, safe, items)
  {
    var temp := safeToTemp[key];
    var i :| IsLast(ItemUids(items), i, temp) && keyToNode[temp] == nodes[i];
    assert items[i].uid == temp && SameFields(nodes[i], items[i]);
  }

  /** The temporary uid that a name leads back to; a Go map gives the empty text for a missing key. */
  function Origin(safeToTemp: map<string, string>, key: string): string {
    if key in safeToTemp then safeToTemp[key] else ""
  }

  ghost predicate AllTraceable(uids: map<string, string>, safeToTemp: map<string, string>,
                               keyToNode: map<string, GraphNode>, safe: Naming, items: seq<Item>)
    reads keyToNode.Values
  {
    forall key :: key in uids ==> Traceable(key, safeToTemp, keyToNode, safe, items)
  }

  /** The temporary uids that some names lead back to, as far as there are nodes for them. */
  ghost function Reached(names: set<string>, safeToTemp: map<string, string>, temps: set<string>): set<string> {
    set key | key in names && Origin(safeToTemp, key) in temps :: Origin(safeToTemp, key)
  }

  /** The names that lead back to no node. */
  ghost function Astray(names: set<string>, safeToTemp: map<string, string>, temps: set<string>): set<string> {
    set key | key in names && Origin(safeToTemp, key) !in temps
  }

  lemma OneMoreName(names: set<string>, k: string, safeToTemp: map<string, string>, temps: set<string>)
    ensures Origin(safeToTemp, k) in temps ==>
      Reached(names + {k}, safeToTemp, temps) == Reached(names, safeToTemp, temps) + {Origin(safeToTemp, k)}
    ensures Origin(safeToTemp, k) in temps ==>
      Astray(names + {k}, safeToTemp, temps) == Astray(names, safeToTemp, temps)
    ensures Origin(safeToTemp, k) !in temps ==>
      Reached(names + {k}, safeToTemp, temps) == Reached(names, safeToTemp, temps)
    ensures Origin(safeToTemp, k) !in temps ==> k in Astray(names + {k}, safeToTemp, temps)
  {
  }

  /** What is told of the node that a name leads back to. */
  function Told(uids: map<string, string>, safeToTemp: map<string, string>, keyToNode: map<string, GraphNode>,
                key: string): Item
    requires key in uids && Origin(safeToTemp, key) in keyToNode
    reads keyToNode.Values
  {
    var n := keyToNode[Origin(safeToTemp, key)];
    Item(uids[key], n.own, n.sgi, n.bits, [])
  }

  ghost predicate IsTold(uids: map<string, string>, safeToTemp: map<string, string>,
                         keyToNode: map<string, GraphNode>, key: string, temp: string, n: Item)
    reads keyToNode.Values
  {
    key in uids && Origin(safeToTemp, key) == temp && temp in keyToNode && n == Told(uids, safeToTemp, keyToNode, key)
  }

  ghost predicate AllTold(uids: map<string, string>, safeToTemp: map<string, string>,
                          keyToNode: map<string, GraphNode>, created: map<string, Item>)
    reads keyToNode.Values
  {
    forall temp :: temp in created ==> exists key :: IsTold(uids, safeToTemp, keyToNode, key, temp, created[temp])
  }

  lemma OneMoreTold(uids: map<string, string>, safeToTemp: map<string, string>, keyToNode: map<string, GraphNode>,
                    created: map<string, Item>, k: string)
    requires k in uids && Origin(safeToTemp, k) in keyToNode && AllTold(uids, safeToTemp, keyToNode, created)
    ensures AllTold(uids, safeToTemp, keyToNode,
                    created[Origin(safeToTemp, k) := Told(uids, safeToTemp, keyToNode, k)])
  {
    var temp := Origin(safeToTemp, k);
    var next := created[temp := Told(uids, safeToTemp, keyToNode, k)];
    assert IsTold(uids, safeToTemp, keyToNode, k, temp, next[temp]);
    forall t | t in next ensures exists key :: IsTold(uids, safeToTemp, keyToNode, key, t, next[t]) {
      if t != temp { assert t in created && next[t] == created[t]; }
    }
  }

  /** The state of the last loop: which names are answered, which are skipped, and what is told. */
  ghost predicate MappedBack(uids: map<string, string>, safeToTemp: map<string, string>,
                             keyToNode: map<string, GraphNode>, done: set<string>, created: map<string, Item>,
                             skipped: bool)
    reads keyToNode.Values
  {
    && done <= uids.Keys
    && (skipped <==> Astray(done, safeToTemp, keyToNode.Keys) != {})
    && created.Keys == Reached(done, safeToTemp, keyToNode.Keys)
    && AllTold(uids, safeToTemp, keyToNode, created)
  }

  /** One turn of the last loop of `UpsertNodes`. */
  method MapOne(uids: map<string, string>, safeToTemp: map<string, string>, keyToNode: map<string, GraphNode>,
                k: string, ghost done: set<string>, created: map<string, Item>, skipped: bool)
      returns (nowCreated: map<string, Item>, nowSkipped: bool)
    requires MappedBack(uids, safeToTemp, keyToNode, done, created, skipped) && k in uids
    ensures MappedBack(uids, safeToTemp, keyToNode, done + {k}, nowCreated, nowSkipped)
  {
    OneMoreName(done, k, safeToTemp, keyToNode.Keys);
    var originalTempKey := Origin(safeToTemp, k);
    if originalTempKey !in keyToNode {
      return created, true;
    }
    var originalNode := keyToNode[originalTempKey];
    OneMoreTold(uids, safeToTemp, keyToNode, created, k);
    nowCreated := created[originalTempKey := Item(uids[k], originalNode.own, originalNode.sgi, originalNode.bits, [])];
    nowSkipped := skipped;
  }

  /**
   * The last loop of `UpsertNodes`. A uid is skipped exactly if its name leads back to no node of the
   * request; every other is answered with its node's fields.
   */
  method MapBack(uids: map<string, string>, safeToTemp: map<string, string>, keyToNode: map<string, GraphNode>)
      returns (created: map<string, Item>, skipped: bool)
    ensures MappedBack(uids, safeToTemp, keyToNode, uids.Keys, created, skipped)
  {
    created := map[];
    skipped := false;
    var rest := uids.Keys;
    ghost var done: set<string> := {};
    while rest != {}
      invariant rest + done == uids.Keys
      invariant MappedBack(uids, safeToTemp, keyToNode, done, created, skipped)
      decreases rest
    {
      var k :| k in rest;
      created, skipped := MapOne(uids, safeToTemp, keyToNode, k, done, created, skipped);
      rest, done := rest - {k}, done + {k};
    }
    assert done == uids.Keys;
  }

  /** Where all names lead back to entries of the request, every answer stands for its entry. */
  lemma ToldStands(uids: map<string, string>, safeToTemp: map<string, string>, keyToNode: map<string, GraphNode>,
                   safe: Naming, items: seq<Item>, created: map<string, Item>)
    requires AllTraceable(uids, safeToTemp, keyToNode, safe, items)
    requires AllTold(uids, safeToTemp, keyToNode, created)
    ensures AllStand(safe, uids, items, created)
  {
    forall temp | temp in created ensures StandsForSome(safe, uids, items, temp, created[temp]) {
      var k :| IsTold(uids, safeToTemp, keyToNode, k, temp, created[temp]);
      assert Traceable(k, safeToTemp, keyToNode, safe, items);
      var i: nat :| i < |items| && items[i].uid == temp && SameFields(keyToNode[temp], items[i]);
      assert StandsFor(safe, uids, items[i], temp, created[temp]);
    }
  }

  function RenamedItems(safe: Naming, items: seq<Item>): (r: seq<Item>)
    ensures |r| == |items| && forall i :: 0 <= i < |items| ==> r[i] == Renamed(safe, items[i])
  {
    seq(|items|, i requires 0 <= i < |items| => Renamed(safe, items[i]))
  }

  /** Every temporary uid of a stub is also that of a node. */
  ghost predicate Closed(safe: Naming, items: seq<Item>) {
    forall i, j :: 0 <= i < |items| && 0 <= j < |items[i].targets| && IsBlank(safe(items[i].targets[j])) ==>
      items[i].targets[j] in ItemUids(items)
  }

  lemma ClosedCovers(m: map<string, string>, safe: Naming, items: seq<Item>, i: nat)
    requires Restores(m, ItemUids(items), safe) && Closed(safe, items) && i < |items|
    ensures Covers(m, safe, items[i].targets)
  {
  }

  lemma NamesAreInMap(m: map<string, string>, safe: Naming, items: seq<Item>)
    requires Restores(m, ItemUids(items), safe) && Closed(safe, items)
    ensures BlankNames(RenamedItems(safe, items)) <= m.Keys
  {
    var r := RenamedItems(safe, items);
    forall i, j | 0 <= i < |r| && 0 <= j < |r[i].targets| && IsBlank(r[i].targets[j])
      ensures NameOf(r[i].targets[j]) in m
    {
      ClosedCovers(m, safe, items, i);
    }
    forall i | 0 <= i < |r| && IsBlank(r[i].uid) ensures NameOf(r[i].uid) in m {
      assert ItemUids(items)[i] == items[i].uid;
    }
  }

  predicate Clash(safe: Naming, a: string, b: string) {
    a != b && IsBlank(safe(a)) && safe(a) == safe(b)
  }

  /** The digests of a request's temporary uids differ. */
  ghost predicate Separates(safe: Naming, items: seq<Item>) {
    forall i, k :: 0 <= i < |items| && 0 <= k < |items| ==> !Clash(safe, items[i].uid, items[k].uid)
  }

  /** Every temporary uid of the request is answered, and no other; under it stands a request entry with its new uid. */
  ghost predicate Answers(safe: Naming, assign: string -> string, items: seq<Item>, created: map<string, Item>) {
    && (forall temp :: temp in created <==> temp in ItemUids(items) && IsBlank(safe(temp)))
    && (forall temp :: temp in created ==>
         exists i :: 0 <= i < |items| && AnswerFor(safe, assign, items[i], temp, created[temp]))
  }

  predicate AnswerFor(safe: Naming, assign: string -> string, item: Item, temp: string, n: Item) {
    item.uid == temp && IsBlank(safe(temp)) && n == JustOwnerAndPerms(assign(NameOf(safe(temp))), item)
  }

  lemma BlanksOfSameName(a: string, b: string)
    requires IsBlank(a) && IsBlank(b) && NameOf(a) == NameOf(b)
    ensures a == b
  {
    assert a == ['_', ':'] + a[2..] && b == ['_', ':'] + b[2..];
  }

  lemma TempIsNamed(safe: Naming, items: seq<Item>, m: map<string, string>, i: nat)
    requires Restores(m, ItemUids(items), safe) && Separates(safe, items)
    requires i < |items| && IsBlank(safe(items[i].uid))
    ensures NameOf(safe(items[i].uid)) in BlankNames(RenamedItems(safe, items))
    ensures NameOf(safe(items[i].uid)) in m && m[NameOf(safe(items[i].uid))] == items[i].uid
  {
    var temp := items[i].uid;
    var key := NameOf(safe(temp));
    assert RenamedItems(safe, items)[i].uid == safe(temp);
    assert ItemUids(items)[i] == temp;
    assert m[key] in ItemUids(items);
    var k :| 0 <= k < |items| && ItemUids(items)[k] == m[key];
    BlanksOfSameName(safe(temp), safe(items[k].uid));
    assert !Clash(safe, temp, items[k].uid);
  }

  lemma EveryTempAnswered(safe: Naming, assign: string -> string, items: seq<Item>, m: map<string, string>,
                          uids: map<string, string>, created: map<string, Item>)
    requires Restores(m, ItemUids(items), safe) && Separates(safe, items)
    requires uids.Keys == BlankNames(RenamedItems(safe, items)) && forall b :: b in uids ==> uids[b] == assign(b)
    requires AllStand(safe, uids, items, created)
    requires forall key :: key in uids ==> key in m && m[key] in created
    ensures Answers(safe, assign, items, created)
  {
    forall temp | temp in ItemUids(items) && IsBlank(safe(temp)) ensures temp in created {
      var i :| 0 <= i < |items| && ItemUids(items)[i] == temp;
      TempIsNamed(safe, items, m, i);
    }
    forall temp | temp in created
      ensures exists i :: 0 <= i < |items| && AnswerFor(safe, assign, items[i], temp, created[temp])
      ensures temp in ItemUids(items) && IsBlank(safe(temp))
    {
      assert StandsForSome(safe, uids, items, temp, created[temp]);
      var i :| 0 <= i < |items| && StandsFor(safe, uids, items[i], temp, created[temp]);
      assert AnswerFor(safe, assign, items[i], temp, created[temp]);
      assert ItemUids(items)[i] == temp;
    }
  }

  /** No temporary uid is that of two entries. */
  ghost predicate DistinctTemps(safe: Naming, items: seq<Item>) {
    forall i, k :: 0 <= i < k < |items| && IsBlank(safe(items[k].uid)) ==> items[i].uid != items[k].uid
  }

  ghost predicate ListOk(safe: Naming, items: seq<Item>) { DistinctTemps(safe, items) && Closed(safe, items) }

  lemma UidSetOfItems(list: seq<GraphNode>, n: nat, uid: string)
    requires n <= |list|
    ensures uid in UidSet(list[..n]) <==> exists i :: 0 <= i < n && Items(list)[i].uid == uid
  {
    var front := list[..n];
    forall i | 0 <= i < n ensures front[i] == list[i] && Items(list)[i].uid == front[i].uid {}
  }

  /** A list without nulls is acceptable exactly when its values are: distinct temporary uids, all of them defined. */
  lemma AcceptableExactly(list: seq<GraphNode>, md5: string -> string)
    requires forall i :: 0 <= i < |list| ==> Filled(list[i])
    ensures Acceptable(list) <==> ListOk(NamingOf(md5), Items(list))
  {
    DistinctExactly(list, md5);
    ClosedExactly(list, md5);
  }

  lemma DistinctExactly(list: seq<GraphNode>, md5: string -> string)
    ensures NodesOk(list, |list|) <==> DistinctTemps(NamingOf(md5), Items(list))
  {
    var items := Items(list);
    forall k | 0 <= k < |list|
      ensures NodeOk(list, k)
         <==> IsBlank(NamingOf(md5)(items[k].uid)) ==> forall i :: 0 <= i < k ==> items[i].uid != items[k].uid
    {
      UidSetOfItems(list, k, list[k].uid);
      assert NamingOf(md5)(items[k].uid) == UidOrSafeTempUid(md5, items[k].uid);
    }
  }

  lemma StubOkExactly(list: seq<GraphNode>, md5: string -> string, e: GraphNode)
    ensures StubOk(list, e) <==> (IsBlank(NamingOf(md5)(e.uid)) ==> e.uid in ItemUids(Items(list)))
  {
    UidSetIsItemUids(list, e.uid);
    assert NamingOf(md5)(e.uid) == UidOrSafeTempUid(md5, e.uid);
  }

  lemma UidSetIsItemUids(list: seq<GraphNode>, uid: string)
    ensures uid in UidSet(list) <==> uid in ItemUids(Items(list))
  {
    var uids := ItemUids(Items(list));
    if uid in uids {
      var k :| 0 <= k < |uids| && uids[k] == uid;
      assert list[k].uid == uid;
    }
    if uid in UidSet(list) {
      var k :| 0 <= k < |list| && list[k].uid == uid;
      assert uids[k] == uid;
    }
  }

  lemma ClosedExactly(list: seq<GraphNode>, md5: string -> string)
    requires forall i :: 0 <= i < |list| ==> Filled(list[i])
    ensures AllEdgesOk(list) <==> Closed(NamingOf(md5), Items(list))
  {
    var items := Items(list);
    forall i, j | 0 <= i < |list| && 0 <= j < |list[i].outEdges|
      ensures items[i].targets[j] == list[i].outEdges[j].uid
      ensures StubOk(list, list[i].outEdges[j])
         <==> (IsBlank(NamingOf(md5)(items[i].targets[j])) ==> items[i].targets[j] in ItemUids(items))
    {
      StubOkExactly(list, md5, list[i].outEdges[j]);
    }
  }

  lemma AcceptableIsClosed(list: seq<GraphNode>, md5: string -> string)
    requires Acceptable(list)
    ensures Closed(NamingOf(md5), Items(list))
    ensures forall i :: 0 <= i < |list| ==> Filled(list[i])
  {
    var items := Items(list);
    forall i, j | 0 <= i < |items| && 0 <= j < |items[i].targets| && IsBlank(NamingOf(md5)(items[i].targets[j]))
      ensures items[i].targets[j] in ItemUids(items)
    {
      assert EdgesOk(list, list[i]) && StubOk(list, list[i].outEdges[j]);
      var k :| 0 <= k < |list| && list[k].uid == items[i].targets[j];
      assert ItemUids(items)[k] == items[i].targets[j];
    }
    forall i | 0 <= i < |list| ensures Filled(list[i]) {
      assert EdgesOk(list, list[i]);
      forall j | 0 <= j < |list[i].outEdges| ensures list[i].outEdges[j] != null {
        assert StubOk(list, list[i].outEdges[j]);
      }
    }
  }

  lemma AfterRenaming(nodes: seq<GraphNode>, safe: Naming, items: seq<Item>)
    requires HoldAll(nodes, safe, items, |nodes|)
    ensures Items(nodes) == RenamedItems(safe, items) && KeepFields(nodes, items)
  {
    forall k | 0 <= k < |nodes| ensures ItemOf(nodes[k]) == Renamed(safe, items[k]) {
      assert StandsRenamed(nodes[k], safe, items[k], true);
    }
  }

  lemma HoldAfterNaming(nodes: seq<GraphNode>, safe: Naming, items: seq<Item>)
    requires KeepFields(nodes, items) && Uids(nodes) == RenamedAll(safe, ItemUids(items))
    requires forall k :: 0 <= k < |nodes| ==> Targets(nodes[k]) == items[k].targets
    ensures HoldAll(nodes, safe, items, 0)
  {
    forall k | 0 <= k < |nodes| ensures StandsRenamed(nodes[k], safe, items[k], false) {
      assert Uids(nodes)[k] == RenamedAll(safe, ItemUids(items))[k];
    }
  }

  /** `makeSafeUids` on the request's nodes, their stubs still as they were. */
  method NameNodes(nodes: seq<GraphNode>, safe: Naming, ghost items: seq<Item>)
      returns (safeToTemp: map<string, string>)
    requires NoAliasing(nodes) && KeepFields(nodes, items) && Uids(nodes) == ItemUids(items)
    requires forall k :: 0 <= k < |nodes| ==> Targets(nodes[k]) == items[k].targets
    modifies nodes`uid
    ensures HoldAll(nodes, safe, items, 0)
    ensures Restores(safeToTemp, ItemUids(items), safe)
  {
    safeToTemp := MakeSafeUids(nodes, safe);
    forall k | 0 <= k < |nodes| ensures Targets(nodes[k]) == items[k].targets {
      SameTargets(nodes[k]);
    }
    HoldAfterNaming(nodes, safe, items);
  }

  /** `UpsertNodes` up to the mutation, on a list that was accepted: only uids, tokens and marks change. */
  method MakeMutation(nodes: seq<GraphNode>, md5: string -> string, ghost items: seq<Item>)
      returns (mutation: seq<Item>, safeToTemp: map<string, string>, keyToNode: map<string, GraphNode>)
    requires NoAliasing(nodes) && Acceptable(nodes) && items == Items(nodes)
    modifies nodes`uid, nodes`authzData, nodes`isNew, Stubs(nodes)`uid, Stubs(nodes)`authzData
    ensures mutation == RenamedItems(NamingOf(md5), items) && KeepFields(nodes, items)
    ensures Restores(safeToTemp, ItemUids(items), NamingOf(md5)) && Closed(NamingOf(md5), items)
    ensures MapsToNodes(keyToNode, ItemUids(items), nodes)
  {
    AcceptableIsClosed(nodes, md5);
    var safe := NamingOf(md5);
    keyToNode := MapNodes(nodes);
    assert Uids(nodes) == ItemUids(items);
    safeToTemp := NameNodes(nodes, safe, items);
    forall k | 0 <= k < |items| ensures Covers(safeToTemp, safe, items[k].targets) {
      ClosedCovers(safeToTemp, safe, items, k);
    }
    safeToTemp := RenameNodes(nodes, safe, safeToTemp, items);
    AfterRenaming(nodes, safe, items);
    mutation := Items(nodes);
  }

  lemma EveryNewUidIsTraceable(safeToTemp: map<string, string>, keyToNode: map<string, GraphNode>,
                               nodes: seq<GraphNode>, safe: Naming, items: seq<Item>, uids: map<string, string>)
    requires Restores(safeToTemp, ItemUids(items), safe) && Closed(safe, items)
    requires MapsToNodes(keyToNode, ItemUids(items), nodes) && KeepFields(nodes, items)
    requires uids.Keys == BlankNames(RenamedItems(safe, items))
    ensures AllTraceable(uids, safeToTemp, keyToNode, safe, items)
  {
    NamesAreInMap(safeToTemp, safe, items);
    forall key | key in uids ensures Traceable(key, safeToTemp, keyToNode, safe, items) {
      EveryNameIsTraceable(safeToTemp, keyToNode, nodes, safe, items, key);
    }
  }

  lemma AllReached(uids: map<string, string>, safeToTemp: map<string, string>, keyToNode: map<string, GraphNode>,
                   safe: Naming, items: seq<Item>)
    requires AllTraceable(uids, safeToTemp, keyToNode, safe, items)
    ensures Astray(uids.Keys, safeToTemp, keyToNode.Keys) == {}
    ensures forall key :: key in uids ==>
      key in safeToTemp && safeToTemp[key] in Reached(uids.Keys, safeToTemp, keyToNode.Keys)
  {
    forall key | key in uids
      ensures key in safeToTemp && Origin(safeToTemp, key) in keyToNode.Keys
      ensures safeToTemp[key] in Reached(uids.Keys, safeToTemp, keyToNode.Keys)
    {
      assert Traceable(key, safeToTemp, keyToNode, safe, items);
      assert Origin(safeToTemp, key) in Reached(uids.Keys, safeToTemp, keyToNode.Keys);
    }
  }

  /** Answering: what comes back for the uids of new nodes. */
  method AnswerAll(uids: map<string, string>, safe: Naming, ghost assign: string -> string,
                   safeToTemp: map<string, string>, keyToNode: map<string, GraphNode>,
                   ghost nodes: seq<GraphNode>, ghost items: seq<Item>)
      returns (created: map<string, Item>, skipped: bool)
    requires uids.Keys == BlankNames(RenamedItems(safe, items)) && forall b :: b in uids ==> uids[b] == assign(b)
    requires Separates(safe, items) && Restores(safeToTemp, ItemUids(items), safe) && Closed(safe, items)
    requires MapsToNodes(keyToNode, ItemUids(items), nodes) && KeepFields(nodes, items)
    ensures !skipped && Answers(safe, assign, items, created)
  {
    EveryNewUidIsTraceable(safeToTemp, keyToNode, nodes, safe, items, uids);
    AllReached(uids, safeToTemp, keyToNode, safe, items);
    created, skipped := MapBack(uids, safeToTemp, keyToNode);
    ToldStands(uids, safeToTemp, keyToNode, safe, items, created);
    EveryTempAnswered(safe, assign, items, safeToTemp, uids, created);
  }

  /** `UpsertNodes` from the mutation on. */
  method WriteAndAnswer(mutation: seq<Item>, db: Database, safe: Naming, assign: string -> string,
                        safeToTemp: map<string, string>, keyToNode: map<string, GraphNode>,
                        ghost nodes: seq<GraphNode>, ghost items: seq<Item>)
      returns (created: map<string, Item>, skipped: bool)
    requires mutation == RenamedItems(safe, items) && Separates(safe, items)
    requires Restores(safeToTemp, ItemUids(items), safe) && Closed(safe, items)
    requires MapsToNodes(keyToNode, ItemUids(items), nodes) && KeepFields(nodes, items)
    modifies db
    ensures !skipped
    ensures db.edges == old(db.edges) + Written(assign, mutation) && db.store == PutAll(old(db.store), assign, mutation)
    ensures Answers(safe, assign, items, created)
  {
    var uids := db.Mutate(mutation, assign);
    created, skipped := AnswerAll(uids, safe, assign, safeToTemp, keyToNode, nodes, items);
  }

  /** `UpsertNodes` on a list that was accepted. */
  method UpsertAccepted(nodes: seq<GraphNode>, db: Database, md5: string -> string, assign: string -> string,
                        answered: bool, ghost items: seq<Item>)
      returns (r: Response, skipped: bool)
    requires NoAliasing(nodes) && Acceptable(nodes) && items == Items(nodes) && Separates(NamingOf(md5), items)
    modifies db, nodes`uid, nodes`authzData, nodes`isNew, Stubs(nodes)`uid, Stubs(nodes)`authzData
    ensures !skipped && !r.Refused? && (r.Created? <==> answered)
    ensures !r.Created? ==> unchanged(db)
    ensures r.Created? ==>
      && db.edges == old(db.edges) + Written(assign, RenamedItems(NamingOf(md5), items))
      && db.store == PutAll(old(db.store), assign, RenamedItems(NamingOf(md5), items))
    ensures r.Created? ==> Answers(NamingOf(md5), assign, items, r.nodes)
  {
    var mutation, safeToTemp, keyToNode := MakeMutation(nodes, md5, items);
    if !answered {
      return Failed, false;
    }
    var created;
    created, skipped := WriteAndAnswer(mutation, db, NamingOf(md5), assign, safeToTemp, keyToNode, nodes, items);
    r := Created(created);
  }

  /**
   * `UpsertNodes`. A list that is not acceptable changes nothing. An acceptable one is written with its
   * edges renamed, every temporary uid and no other is answered with its new uid and its own fields, and
   * the branch for a uid without a node is never taken. `answered` tells whether the database replied.
   */
  method UpsertNodes(nodeList: seq<GraphNode?>, db: Database, md5: string -> string, assign: string -> string,
                     answered: bool)
      returns (r: Response, skipped: bool)
    requires NoAliasing(nodeList) && Separates(NamingOf(md5), Items(nodeList))
    modifies db, nodeList`uid, nodeList`authzData, nodeList`isNew, Stubs(nodeList)`uid, Stubs(nodeList)`authzData
    ensures !skipped
    ensures r.Created? <==> old(Acceptable(nodeList)) && answered
    ensures !old(Acceptable(nodeList)) ==> r.Refused? && old(FirstError(nodeList, r.error))
    ensures !old(Acceptable(nodeList)) ==> forall o :: o in nodeList && o != null ==> unchanged(o)
    ensures !old(Acceptable(nodeList)) ==> forall o :: o in old(Stubs(nodeList)) && o != null ==> unchanged(o)
    ensures !r.Created? ==> unchanged(db)
    ensures r.Created? ==>
      && db.edges == old(db.edges) + Written(assign, RenamedItems(NamingOf(md5), old(Items(nodeList))))
      && db.store == PutAll(old(db.store), assign, RenamedItems(NamingOf(md5), old(Items(nodeList))))
    ensures r.Created? ==> Answers(NamingOf(md5), assign, old(Items(nodeList)), r.nodes)
    ensures r.Created? ==> ListOk(NamingOf(md5), old(Items(nodeList)))
  {
    ghost var items := Items(nodeList);
    var err := CheckUpsertNodeList(nodeList);
    if err.Some? {
      return Refused(err.value), false;
    }
    var nodes: seq<GraphNode> := nodeList;
    AcceptableExactly(nodes, md5);
    r, skipped := UpsertAccepted(nodes, db, md5, assign, answered, items);
  }
}
