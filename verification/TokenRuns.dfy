/**
 * Tokens and the store over whole runs: creations, patches, edge and share requests, and the queries
 * whose answers carry tokens. Patches name no out-edges, as the API demands.
 */
module TokenRuns {
  import opened Graph
  import opened Text
  import opened Uid
  import opened Base64Url
  import opened Upsert
  import opened Subgraph
  import opened AuthzData
  import opened AuthzStore
  import Creation = CreateNodes
  import Edges

  // ---------------------------------------------------------------- unpacking a patch

  /** One decoded entry of a patch: the submitted fields and the token with them, or JSON null. */
  type Entry = Option<(Authz, string)>

  function CheckEntry(mac: Mac, e: Entry, caller: Caller, grants: set<string>, required: string): Outcome {
    if e.None? then Different else UnpackNode(mac, e.value.0, e.value.1, caller, grants, required)
  }

  /** Index of the first entry that is not accepted, or the length. */
  predicate AcceptedUpTo(mac: Mac, entries: seq<Entry>, caller: Caller, grants: set<string>, required: string, n: nat)
    requires n <= |entries|
  {
    forall k :: 0 <= k < n ==> CheckEntry(mac, entries[k], caller, grants, required) == Equal
  }

  /** An entry that repeats the uid and owner of its token and submits no share group. */
  predicate EntryNamesNoGroup(mac: Mac, e: Entry, key: string) {
    e.Some? && NamesNoGroup(mac, e.value.0, e.value.1, key)
  }

  lemma EntryPanicsExactly(mac: Mac, e: Entry, caller: Caller, grants: set<string>, required: string)
    ensures CheckEntry(mac, e, caller, grants, required) == Panic <==> EntryNamesNoGroup(mac, e, caller.key)
  {
    if e.Some? { UnpackNodePanicsExactly(mac, e.value.0, e.value.1, caller, grants, required); }
  }

  lemma AcceptedStep(mac: Mac, entries: seq<Entry>, caller: Caller, grants: set<string>, required: string, k: nat,
                     r: Outcome)
    requires k < |entries| && AcceptedUpTo(mac, entries, caller, grants, required, k)
    requires r == CheckEntry(mac, entries[k], caller, grants, required)
    ensures r == Equal ==> AcceptedUpTo(mac, entries, caller, grants, required, k + 1)
    ensures r != Equal ==> !AcceptedUpTo(mac, entries, caller, grants, required, |entries|)
    ensures r == Panic <==> EntryNamesNoGroup(mac, entries[k], caller.key)
  {
    EntryPanicsExactly(mac, entries[k], caller, grants, required);
  }

  /** An entry that is not accepted, and what comes of it. */
  predicate StopsAt(mac: Mac, e: Entry, caller: Caller, grants: set<string>, required: string, r: Outcome) {
    r == CheckEntry(mac, e, caller, grants, required) && (r == Panic <==> EntryNamesNoGroup(mac, e, caller.key))
  }

  /**
   * `AuthzDataUnpackNodeSlice`: accepts exactly a non-empty list of accepted entries; otherwise the first
   * entry that is not accepted decides between a refusal and a panic, and panics exactly if it repeats
   * its token's uid and owner and submits no share group.
   */
  method AuthzDataUnpackNodeSlice(mac: Mac, entries: seq<Entry>, caller: Caller, grants: set<string>, required: string)
      returns (r: Outcome, ghost stopped: nat)
    ensures stopped <= |entries| && AcceptedUpTo(mac, entries, caller, grants, required, stopped)
    ensures r == Equal <==> |entries| > 0 && AcceptedUpTo(mac, entries, caller, grants, required, |entries|)
    ensures |entries| == 0 ==> r == Different
    ensures r != Equal && |entries| > 0 ==>
      stopped < |entries| && StopsAt(mac, entries[stopped], caller, grants, required, r)
  {
    stopped := 0;
    if |entries| == 0 { return Different, 0; }
    for k := 0 to |entries|
      invariant stopped == k
      invariant AcceptedUpTo(mac, entries, caller, grants, required, k)
    {
      r := CheckEntry(mac, entries[k], caller, grants, required);
      AcceptedStep(mac, entries, caller, grants, required, k, r);
      if r != Equal { return; }
      stopped := stopped + 1;
    }
    r := Equal;
  }

  // -------------------------------------------------------------------------- the system

  /** A token that was handed out under a user's key, and what it says. */
  datatype Issue = Issue(key: string, says: Authz)

  datatype World = World(store: Store, issued: seq<Issue>, edges: set<Edges.Edge>, grants: map<string, set<string>>)

  /** What the server computes with: its signature, the digest behind blank names, and what renaming does with it. */
  datatype Crypto = Crypto(mac: Mac, md5: string -> string, safe: Naming)

  /** The uid names a new node, by its digest. */
  predicate NamedByDigest(c: Crypto, uid: string) { IsBlank(c.safe(uid)) && NameOf(c.safe(uid)) == c.md5(uid) }

  /** Placeholders are renamed to their digests. */
  ghost predicate Sound(c: Crypto) { forall uid :: CheckUidIsPlaceholder(uid) ==> NamedByDigest(c, uid) }

  /** The renaming of `UpsertNodes` is such, whatever the digest. */
  lemma ServerIsSound(mac: Mac, md5: string -> string)
    ensures Sound(Crypto(mac, md5, NamingOf(md5)))
  {
    var c := Crypto(mac, md5, NamingOf(md5));
    forall uid | CheckUidIsPlaceholder(uid) ensures NamedByDigest(c, uid) {
      PlaceholderIsTemp(uid);
      assert c.safe(uid) == UidOrSafeTempUid(md5, uid);
    }
  }

  /** The requests, with the tokens they present, and what else happens; `assign` is what Dgraph mints. */
  datatype Action =
    | CreateNodes(caller: Caller, parent: string, decoded: seq<Decoded>, items: seq<Item>, resetSgi: bool,
                  generated: string, assign: string -> string)
    | CreateUserNode(caller: Caller, generated: string, bits: Bits, assign: string -> string)
    | PatchNodes(caller: Caller, entries: seq<Entry>, assign: string -> string)
    | ChangeEdges(change: Edges.Change, caller: Caller, subjects: seq<string>, incoming: seq<string>,
                  outgoing: seq<string>, assign: string -> string)
    | ChangeGrants(grants: map<string, set<string>>)
    | Answer(uid: string, key: string)

  function GrantsOf(w: World, uid: string): set<string> { if uid in w.grants then w.grants[uid] else {} }

  // ------------------------------------------------------------------- what the world gives

  predicate Carries(mac: Mac, i: Issue, ad: string, key: string) {
    i.key == key && Packable(i.says) && Verified(mac, ad, key) == Some(Encode(BytesOf(TextOf(i.says))))
  }

  function TextOf(a: Authz): (t: string)
    requires Packable(a)
    ensures ByteString(t)
  {
    AdTextParts(a);
    AdText(a)
  }

  /** The text is one that the server signs for a user. */
  predicate CarriesUser(mac: Mac, uid: string, role: string, ad: string, key: string) {
    DotFree(uid) && DotFree(role) && Verified(mac, ad, key) == Some(Encode(BytesOf(UserText(uid, role))))
  }

  /** What verifies under a key is a node's token issued under it, or a user's. */
  ghost predicate Unforged(mac: Mac, w: World, ad: string, key: string) {
    Verified(mac, ad, key).Some? ==>
      || (exists k :: 0 <= k < |w.issued| && Carries(mac, w.issued[k], ad, key))
      || (exists uid, role :: CarriesUser(mac, uid, role, ad, key))
  }

  ghost predicate AllUnforged(mac: Mac, w: World, ads: seq<string>, key: string) {
    forall k :: 0 <= k < |ads| ==> Unforged(mac, w, ads[k], key)
  }

  /** The address of a node as Dgraph writes it: renaming leaves it alone, and it has no dot. */
  predicate Real(c: Crypto, uid: string) { c.safe(uid) == uid && !IsBlank(uid) && DotFree(uid) }

  lemma CanonicalIsDotFree(uid: string)
    requires Canonical(uid)
    ensures DotFree(uid)
  {
    forall i | 0 <= i < |uid| ensures uid[i] as int < 256 && uid[i] != '.' {
      if i < 2 { assert uid[i] == uid[..2][i]; }
    }
  }

  /** A canonical uid is one. */
  lemma CanonicalIsReal(mac: Mac, md5: string -> string, uid: string)
    requires Canonical(uid)
    ensures Real(Crypto(mac, md5, NamingOf(md5)), uid)
  {
    CanonicalIsDotFree(uid);
    CanonicalIsValid(uid);
    TrimmedIsFixed(md5, uid, uid);
  }

  lemma TrimmedIsFixed(md5: string -> string, uid: string, id: string)
    requires ValidateUid(id) && TrimSpace(uid) == id
    ensures NamingOf(md5)(uid) == id && !IsBlank(id)
  {
    ValidIsNotBlank(id);
    assert NamingOf(md5)(uid) == UidOrSafeTempUid(md5, uid);
  }

  /** Dgraph mints uids that are not in use, a different one for each name. */
  ghost predicate Mints(c: Crypto, store: Store, assign: string -> string, names: set<string>) {
    && (forall a :: a in names ==> Real(c, assign(a)) && assign(a) !in store)
    && (forall a, b :: a in names && b in names && a != b ==> assign(a) != assign(b))
  }

  function NewNames(md5: string -> string, items: seq<Item>): set<string> {
    set i | 0 <= i < |items| :: md5(items[i].uid)
  }

  /** The uids and edges of the decoded nodes are those of the list. */
  predicate DecodedAs(decoded: seq<Decoded>, items: seq<Item>) {
    && |decoded| == |items|
    && forall i :: 0 <= i < |items| && decoded[i] != Null ==> SameNode(decoded[i], items[i])
  }

  predicate SameNode(d: Decoded, item: Item)
    requires d != Null
  {
    && item.uid == d.uid && |item.targets| == |d.edges|
    && forall j :: 0 <= j < |d.edges| && d.edges[j] != Null ==> item.targets[j] == d.edges[j].uid
  }

  const NEW := "new"

  ghost predicate Enabled(c: Crypto, w: World, a: Action) {
    match a
    case CreateNodes(caller, parent, decoded, items, _, generated, assign) =>
      && DotFree(caller.uid) && DotFree(generated) && DecodedAs(decoded, items)
      && Unforged(c.mac, w, parent, caller.key)
      && Separates(c.safe, items) && Mints(c, w.store, assign, NewNames(c.md5, items))
    case CreateUserNode(caller, generated, _, assign) =>
      DotFree(caller.uid) && DotFree(generated) && Mints(c, w.store, assign, {NEW})
    case PatchNodes(caller, entries, _) =>
      forall k :: 0 <= k < |entries| && entries[k].Some? ==> Unforged(c.mac, w, entries[k].value.1, caller.key)
    case ChangeEdges(_, caller, subjects, incoming, outgoing, _) =>
      && AllUnforged(c.mac, w, subjects, caller.key)
      && AllUnforged(c.mac, w, incoming, caller.key) && AllUnforged(c.mac, w, outgoing, caller.key)
    case ChangeGrants(_) => true
    case Answer(uid, _) => uid in w.store
  }

  // ---------------------------------------------------------------------- what requests do

  /** `UpsertNodes` on an acceptable list, as far as the store goes. */
  function Stored(c: Crypto, w: World, items: seq<Item>, assign: string -> string): World {
    var written := RenamedItems(c.safe, items);
    w.(store := PutAll(w.store, assign, written), edges := w.edges + Written(assign, written))
  }

  /** What "PUT nodes" upserts, if it accepts the request. */
  ghost function ToCreate(c: Crypto, w: World, caller: Caller, parent: string, decoded: seq<Decoded>,
                          items: seq<Item>, resetSgi: bool, generated: string): Option<seq<Item>>
  {
    var grants := GrantsOf(w, caller.uid);
    if Creation.Accepts(c.mac, parent, caller, grants, decoded, items, resetSgi, generated, c.safe) then
      var p := Creation.ParentOf(c.mac, parent, caller, grants).value;
      Some(Creation.ToUpsert(items, p, caller, resetSgi, generated))
    else None
  }

  /** The node of "PUT node", under the fixed blank name that `UpsertUserNode` gives it. */
  function UserNode(caller: Caller, generated: string, bits: Bits): Item {
    Item(BLANK + NEW, Some(caller.uid), Some(generated), bits, [])
  }

  /** The list that an accepted patch upserts; comparing the fields left no bit null. */
  function PatchItems(entries: seq<Entry>): (items: seq<Item>)
    ensures |items| == |entries|
    ensures forall k :: 0 <= k < |entries| && entries[k].Some? ==> items[k] == PatchItem(entries[k].value.0)
  {
    seq(|entries|, k requires 0 <= k < |entries| =>
      if entries[k].None? then Item("", None, None, NO_BITS, []) else PatchItem(entries[k].value.0))
  }

  function PatchItem(a: Authz): Item { Item(a.uid, a.own, a.sgi, NoNulls(a.bits), []) }

  /** The uids that tokens prove. */
  function Proven(mac: Mac, ads: seq<string>, caller: Caller, grants: set<string>,
                  required: string): (uids: seq<string>)
    requires Edges.AllUnpack(mac, ads, caller, grants, required)
    ensures Edges.ProvenUids(mac, ads, caller, grants, required, uids)
  {
    seq(|ads|, k requires 0 <= k < |ads| => Unpack(mac, ads[k], caller, grants, required).value.uid)
  }

  /** What an edge mutation writes of the nodes themselves. */
  function BareItems(uids: seq<string>): (items: seq<Item>)
    ensures |items| == |uids| && forall k :: 0 <= k < |uids| ==> items[k] == Item(uids[k], None, None, NO_BITS, [])
  {
    seq(|uids|, k requires 0 <= k < |uids| => Item(uids[k], None, None, NO_BITS, []))
  }

  /** A request that is refused, for whatever reason, writes nothing. */
  ghost function After(c: Crypto, w: World, a: Action): World {
    match a
    case CreateNodes(caller, parent, decoded, items, resetSgi, generated, assign) =>
      (match ToCreate(c, w, caller, parent, decoded, items, resetSgi, generated)
       case None => w
       case Some(all) => Stored(c, w, all, assign))
    case CreateUserNode(caller, generated, bits, assign) =>
      w.(store := Put(w.store, assign, UserNode(caller, generated, bits)))
    case PatchNodes(caller, entries, assign) =>
      if entries != [] && AcceptedUpTo(c.mac, entries, caller, GrantsOf(w, caller.uid), "w", |entries|)
      then Stored(c, w, PatchItems(entries), assign)
      else w
    case ChangeEdges(change, caller, subjects, incoming, outgoing, assign) =>
      var grants := GrantsOf(w, caller.uid);
      if Edges.Allowed(c.mac, caller, grants, subjects, incoming, outgoing) then
        var s := Proven(c.mac, subjects, caller, grants, Edges.SubjectPermissions(|incoming|, |outgoing|));
        var i, o := Proven(c.mac, incoming, caller, grants, "o"), Proven(c.mac, outgoing, caller, grants, "i");
        w.(edges := Edges.Updated(w.edges, change, s, i, o), store := PutAll(w.store, assign, BareItems(s + i + o)))
      else w
    case ChangeGrants(grants) => w.(grants := grants)
    case Answer(uid, key) => if uid in w.store then w.(issued := w.issued + [Issue(key, w.store[uid])]) else w
  }

  ghost predicate Init(w: World) { w.store == map[] && w.issued == [] && w.edges == {} }

  ghost predicate StepBy(c: Crypto, w: World, a: Action, v: World) { Enabled(c, w, a) && v == After(c, w, a) }

  ghost predicate Step(c: Crypto, w: World, v: World) { exists a :: StepBy(c, w, a, v) }

  ghost predicate StepAt(c: Crypto, run: seq<World>, i: int)
    requires 0 < i < |run|
  {
    Step(c, run[i - 1], run[i])
  }

  ghost predicate Behaviour(c: Crypto, run: seq<World>) {
    |run| > 0 && Init(run[0]) && forall i :: 0 < i < |run| ==> StepAt(c, run, i)
  }

  // ------------------------------------------------------------------------- the invariant

  /** Owner and share group are set, and no part of the record has a dot. */
  predicate WellMade(c: Crypto, uid: string, a: Authz) {
    a.uid == uid && Real(c, uid) && a.own.Some? && a.sgi.Some? && DotFree(a.own.value) && DotFree(a.sgi.value)
  }

  ghost predicate StoreOk(c: Crypto, store: Store) { forall uid :: uid in store ==> WellMade(c, uid, store[uid]) }

  predicate IssueOk(store: Store, i: Issue) {
    Packable(i.says) && i.says.own.Some? && i.says.uid in store && SameAuthz(i.says, store[i.says.uid])
  }

  ghost predicate Inv(c: Crypto, w: World) {
    StoreOk(c, w.store) && forall k :: 0 <= k < |w.issued| ==> IssueOk(w.store, w.issued[k])
  }

  // -------------------------------------------------------------- what a token is worth

  /** What a token carries is the text of what was issued, so the node in it is the issued one. */
  lemma CarriedNode(mac: Mac, i: Issue, ad: string, key: string)
    requires Carries(mac, i, ad, key)
    ensures NodeFromAD(mac, ad, key).Some? && SameAuthz(NodeFromAD(mac, ad, key).value, i.says)
  {
    DecodeEncode(BytesOf(TextOf(i.says)));
    StringOfBytesOf(TextOf(i.says));
    TextRoundTrip(i.says);
  }

  lemma UserTextIsBytes(uid: string, role: string)
    requires DotFree(uid) && DotFree(role)
    ensures ByteString(UserText(uid, role))
  {
  }

  /** A user's token never passes for a node's. */
  lemma CarriedUser(mac: Mac, uid: string, role: string, ad: string, key: string)
    requires CarriesUser(mac, uid, role, ad, key)
    ensures NodeFromAD(mac, ad, key) == None
  {
    UserTextIsBytes(uid, role);
    DecodeEncode(BytesOf(UserText(uid, role)));
    StringOfBytesOf(UserText(uid, role));
    KindsNeverConfused(Authz("", None, None, NO_BITS), uid, role);
  }

  /** A text that reads as a node's token says what the store says. */
  lemma NodeTokenIsStored(c: Crypto, w: World, ad: string, key: string)
    requires Inv(c, w) && Unforged(c.mac, w, ad, key) && NodeFromAD(c.mac, ad, key).Some?
    ensures var a := NodeFromAD(c.mac, ad, key).value;
      a.own.Some? && a.sgi.Some? && a.uid in w.store && SameAuthz(a, w.store[a.uid])
  {
    if exists uid, role :: CarriesUser(c.mac, uid, role, ad, key) {
      var uid, role :| CarriesUser(c.mac, uid, role, ad, key);
      CarriedUser(c.mac, uid, role, ad, key);
    } else {
      VerifiedIfRead(c.mac, ad, key);
      var k :| 0 <= k < |w.issued| && Carries(c.mac, w.issued[k], ad, key);
      CarriedNode(c.mac, w.issued[k], ad, key);
      assert IssueOk(w.store, w.issued[k]);
    }
  }

  lemma VerifiedIfRead(mac: Mac, ad: string, key: string)
    requires NodeFromAD(mac, ad, key).Some?
    ensures Verified(mac, ad, key).Some?
  {
    if Verified(mac, ad, key).None? { SplitOfEmpty(); }
  }

  lemma SplitOfEmpty()
    ensures NodeFromText("") == None
  {
  }

  // ------------------------------------------------------------------------- creations

  function OwnedAll(items: seq<Item>, owner: string, sgi: string): (r: seq<Item>)
    ensures |r| == |items| && forall i :: 0 <= i < |items| ==> r[i] == Owned(items[i], owner, sgi)
  {
    seq(|items|, i requires 0 <= i < |items| => Owned(items[i], owner, sgi))
  }

  predicate AllNamed(c: Crypto, items: seq<Item>) { forall i :: 0 <= i < |items| ==> NamedByDigest(c, items[i].uid) }

  lemma NodesAreNamed(c: Crypto, decoded: seq<Decoded>, items: seq<Item>)
    requires Sound(c) && Creation.Valid(decoded) && DecodedAs(decoded, items)
    ensures AllNamed(c, items)
  {
    forall i | 0 <= i < |items| ensures NamedByDigest(c, items[i].uid) {
      assert decoded[i] != Null && SameNode(decoded[i], items[i]);
      assert CheckUidIsPlaceholder(items[i].uid);
    }
  }

  /** The written list is the new nodes, each at a uid of its own, and the parent. */
  lemma WrittenList(c: Crypto, items: seq<Item>, parent: string, owner: string, sgi: string)
    requires items != [] && Real(c, parent)
    ensures var r := RenamedItems(c.safe, WithParent(items, parent, owner, sgi));
      && r[..|items|] == RenamedItems(c.safe, OwnedAll(items, owner, sgi))
      && r[|items|].uid == parent && NoFields(r[|items|])
  {
    var r := RenamedItems(c.safe, WithParent(items, parent, owner, sgi));
    var o := RenamedItems(c.safe, OwnedAll(items, owner, sgi));
    assert |r[..|items|]| == |o| && forall i :: 0 <= i < |items| ==> r[..|items|][i] == o[i];
  }

  lemma AddressesDiffer(c: Crypto, store: Store, assign: string -> string, items: seq<Item>, i: nat, k: nat)
    requires i < |items| && k < |items| && AllNamed(c, items) && items[i].uid != items[k].uid
    requires Separates(c.safe, items) && Mints(c, store, assign, NewNames(c.md5, items))
    ensures Address(assign, c.safe(items[i].uid)) != Address(assign, c.safe(items[k].uid))
  {
    var a, b := items[i].uid, items[k].uid;
    assert NamedByDigest(c, a) && NamedByDigest(c, b) && !Clash(c.safe, a, b);
    if c.md5(a) == c.md5(b) { BlanksOfSameName(c.safe(a), c.safe(b)); }
    assert c.md5(a) in NewNames(c.md5, items) && c.md5(b) in NewNames(c.md5, items);
  }

  lemma TempsDiffer(safe: Naming, items: seq<Item>, parent: string, owner: string, sgi: string, i: nat, k: nat)
    requires items != [] && DistinctTemps(safe, WithParent(items, parent, owner, sgi))
    requires i < k < |items| && IsBlank(safe(items[k].uid))
    ensures items[i].uid != items[k].uid
  {
    var all := WithParent(items, parent, owner, sgi);
    assert all[i].uid == items[i].uid && all[k].uid == items[k].uid;
  }

  lemma NewNodesAreNew(c: Crypto, store: Store, assign: string -> string, items: seq<Item>, parent: string,
                       owner: string, sgi: string)
    requires items != [] && AllNamed(c, items) && DistinctTemps(c.safe, WithParent(items, parent, owner, sgi))
    requires Separates(c.safe, items) && Mints(c, store, assign, NewNames(c.md5, items))
    ensures AllNew(store, assign, RenamedItems(c.safe, OwnedAll(items, owner, sgi)))
  {
    var r := RenamedItems(c.safe, OwnedAll(items, owner, sgi));
    forall i | 0 <= i < |r| ensures Address(assign, r[i].uid) !in store {
      assert NamedByDigest(c, items[i].uid) && c.md5(items[i].uid) in NewNames(c.md5, items);
    }
    forall i, k | 0 <= i < k < |r| ensures Address(assign, r[i].uid) != Address(assign, r[k].uid) {
      assert NamedByDigest(c, items[k].uid);
      TempsDiffer(c.safe, items, parent, owner, sgi, i, k);
      AddressesDiffer(c, store, assign, items, i, k);
    }
  }

  /** The records of created nodes: the caller owns them, in one share group, with the bits that were asked for. */
  function CreatedRecords(c: Crypto, assign: string -> string, items: seq<Item>, owner: string, sgi: string): Store {
    Records(assign, RenamedItems(c.safe, OwnedAll(items, owner, sgi)))
  }

  lemma CreatedExactly(c: Crypto, store: Store, assign: string -> string, items: seq<Item>, parent: string,
                       owner: string, sgi: string)
    requires items != [] && AllNamed(c, items) && DistinctTemps(c.safe, WithParent(items, parent, owner, sgi))
    requires Separates(c.safe, items) && Mints(c, store, assign, NewNames(c.md5, items))
    requires parent in store && Real(c, parent)
    ensures PutAll(store, assign, RenamedItems(c.safe, WithParent(items, parent, owner, sgi)))
         == store + CreatedRecords(c, assign, items, owner, sgi)
  {
    var r := RenamedItems(c.safe, WithParent(items, parent, owner, sgi));
    WrittenList(c, items, parent, owner, sgi);
    NewNodesAreNew(c, store, assign, items, parent, owner, sgi);
    PutAllNew(store, assign, r[..|items|]);
    PutNothing(store + CreatedRecords(c, assign, items, owner, sgi), assign, r[|items|]);
  }

  /** The record of one created node. */
  predicate IsCreated(c: Crypto, store: Store, owner: string, uid: string, a: Authz) {
    uid !in store && WellMade(c, uid, a) && a.own == Some(owner)
  }

  lemma CreatedAreWellMade(c: Crypto, store: Store, assign: string -> string, items: seq<Item>, owner: string,
                           sgi: string, uid: string)
    requires AllNamed(c, items) && Mints(c, store, assign, NewNames(c.md5, items)) && DotFree(owner) && DotFree(sgi)
    requires uid in CreatedRecords(c, assign, items, owner, sgi)
    ensures IsCreated(c, store, owner, uid, CreatedRecords(c, assign, items, owner, sgi)[uid])
  {
    var i := RecordsAre(assign, RenamedItems(c.safe, OwnedAll(items, owner, sgi)), uid);
    assert NamedByDigest(c, items[i].uid) && c.md5(items[i].uid) in NewNames(c.md5, items);
  }

  /** What a token proves is stored, and the store grants it too. */
  lemma ProvenIsStored(c: Crypto, w: World, ad: string, caller: Caller, grants: set<string>, required: string)
    requires Inv(c, w) && Unforged(c.mac, w, ad, caller.key) && Unpack(c.mac, ad, caller, grants, required).Some?
    ensures var a := Unpack(c.mac, ad, caller, grants, required).value;
      a.uid in w.store && Real(c, a.uid) && DotFree(OrEmpty(a.sgi)) && Grants(w.store[a.uid], caller, grants, required)
  {
    Edges.UnpackedProves(c.mac, ad, caller, grants, required);
    NodeTokenIsStored(c, w, ad, caller.key);
    var t := NodeFromAD(c.mac, ad, caller.key).value;
    StoredRecord(c, w, t);
    SameAuthzSameDecision(t, w.store[t.uid], caller, grants, required);
  }

  lemma StoredRecord(c: Crypto, w: World, t: Authz)
    requires Inv(c, w) && t.uid in w.store && t.own.Some? && t.sgi.Some? && SameAuthz(t, w.store[t.uid])
    ensures Real(c, t.uid) && DotFree(OrEmpty(t.sgi)) && t.own == w.store[t.uid].own && t.sgi == w.store[t.uid].sgi
  {
    assert WellMade(c, t.uid, w.store[t.uid]);
  }

  /** What an accepted "PUT nodes" does to the store: the new records, and nothing else. */
  lemma CreationStores(c: Crypto, w: World, caller: Caller, parent: string, decoded: seq<Decoded>, items: seq<Item>,
                       resetSgi: bool, generated: string, assign: string -> string) returns (sgi: string)
    requires Sound(c) && Inv(c, w)
    requires Enabled(c, w, CreateNodes(caller, parent, decoded, items, resetSgi, generated, assign))
    requires ToCreate(c, w, caller, parent, decoded, items, resetSgi, generated).Some?
    ensures Stored(c, w, ToCreate(c, w, caller, parent, decoded, items, resetSgi, generated).value, assign).store
         == w.store + CreatedRecords(c, assign, items, caller.uid, sgi)
    ensures AllNamed(c, items) && DotFree(sgi)
    ensures sgi == Creation.GroupFor(Creation.ParentOf(c.mac, parent, caller, GrantsOf(w, caller.uid)).value,
                                     resetSgi, generated)
    ensures forall uid :: uid in CreatedRecords(c, assign, items, caller.uid, sgi) ==>
      IsCreated(c, w.store, caller.uid, uid, CreatedRecords(c, assign, items, caller.uid, sgi)[uid])
  {
    var p := Creation.ParentOf(c.mac, parent, caller, GrantsOf(w, caller.uid)).value;
    sgi := Creation.GroupFor(p, resetSgi, generated);
    ProvenIsStored(c, w, parent, caller, GrantsOf(w, caller.uid), "o");
    NodesAreNamed(c, decoded, items);
    CreatedExactly(c, w.store, assign, items, p.uid, caller.uid, sgi);
    forall uid | uid in CreatedRecords(c, assign, items, caller.uid, sgi)
      ensures IsCreated(c, w.store, caller.uid, uid, CreatedRecords(c, assign, items, caller.uid, sgi)[uid])
    {
      CreatedAreWellMade(c, w.store, assign, items, caller.uid, sgi, uid);
    }
  }

  /** The group of what is created: a new one if asked for, else that of the stored parent. */
  lemma CreationGroup(c: Crypto, w: World, caller: Caller, parent: string, resetSgi: bool, generated: string)
      returns (p: string, sgi: string)
    requires Inv(c, w) && Unforged(c.mac, w, parent, caller.key)
    requires Creation.ParentOf(c.mac, parent, caller, GrantsOf(w, caller.uid)).Some?
    ensures sgi == Creation.GroupFor(Creation.ParentOf(c.mac, parent, caller, GrantsOf(w, caller.uid)).value,
                                     resetSgi, generated)
    ensures p in w.store && p == Creation.ParentOf(c.mac, parent, caller, GrantsOf(w, caller.uid)).value.uid
    ensures if resetSgi then sgi == generated else w.store[p].sgi == Some(sgi)
  {
    var grants := GrantsOf(w, caller.uid);
    Edges.UnpackedProves(c.mac, parent, caller, grants, "o");
    NodeTokenIsStored(c, w, parent, caller.key);
    var t := NodeFromAD(c.mac, parent, caller.key).value;
    StoredRecord(c, w, t);
    p := t.uid;
    sgi := Creation.GroupFor(Creation.ParentOf(c.mac, parent, caller, grants).value, resetSgi, generated);
  }

  /** Each new node is stored at its own address, the caller's, in that group, with the bits that were asked for. */
  lemma CreatedAsAsked(c: Crypto, store: Store, assign: string -> string, items: seq<Item>, parent: string,
                       owner: string, sgi: string, i: nat)
    requires items != [] && AllNamed(c, items) && DistinctTemps(c.safe, WithParent(items, parent, owner, sgi))
    requires Separates(c.safe, items) && Mints(c, store, assign, NewNames(c.md5, items)) && i < |items|
    ensures var uid := assign(c.md5(items[i].uid));
      && uid in CreatedRecords(c, assign, items, owner, sgi)
      && CreatedRecords(c, assign, items, owner, sgi)[uid] == Authz(uid, Some(owner), Some(sgi), items[i].bits)
  {
    var r := RenamedItems(c.safe, OwnedAll(items, owner, sgi));
    NewNodesAreNew(c, store, assign, items, parent, owner, sgi);
    RecordOf(assign, r, i);
    assert NamedByDigest(c, items[i].uid);
    assert r[i] == Renamed(c.safe, Owned(items[i], owner, sgi));
  }

  // ----------------------------------------------------------------- the other requests

  lemma UserNodeStores(c: Crypto, store: Store, caller: Caller, generated: string, bits: Bits, assign: string -> string)
    requires DotFree(caller.uid) && DotFree(generated) && Mints(c, store, assign, {NEW})
    ensures var a := Authz(assign(NEW), Some(caller.uid), Some(generated), bits);
      && Put(store, assign, UserNode(caller, generated, bits)) == store[a.uid := a]
      && IsCreated(c, store, caller.uid, a.uid, a)
  {
    var item := UserNode(caller, generated, bits);
    assert NEW in {NEW};
    assert NameOf(BLANK + NEW) == NEW;
    PutNew(store, assign, item);
  }

  /** An accepted entry of a patch repeats what is stored. */
  lemma AcceptedEntryRepeats(c: Crypto, w: World, n: Authz, ad: string, caller: Caller)
    requires Inv(c, w) && Unforged(c.mac, w, ad, caller.key)
    requires UnpackNode(c.mac, n, ad, caller, GrantsOf(w, caller.uid), "w") == Equal
    ensures Repeats(w.store, Renamed(c.safe, PatchItem(n)))
  {
    UnpackedNodeMatchesToken(c.mac, n, ad, caller, GrantsOf(w, caller.uid), "w");
    NodeTokenIsStored(c, w, ad, caller.key);
    StoredRecord(c, w, NodeFromAD(c.mac, ad, caller.key).value);
  }

  lemma PatchRepeats(c: Crypto, w: World, caller: Caller, entries: seq<Entry>, assign: string -> string)
    requires Inv(c, w) && Enabled(c, w, PatchNodes(caller, entries, assign))
    requires AcceptedUpTo(c.mac, entries, caller, GrantsOf(w, caller.uid), "w", |entries|)
    ensures forall i :: 0 <= i < |entries| ==> Repeats(w.store, RenamedItems(c.safe, PatchItems(entries))[i])
  {
    forall k | 0 <= k < |entries| ensures Repeats(w.store, RenamedItems(c.safe, PatchItems(entries))[k]) {
      assert CheckEntry(c.mac, entries[k], caller, GrantsOf(w, caller.uid), "w") == Equal;
      AcceptedEntryRepeats(c, w, entries[k].value.0, entries[k].value.1, caller);
    }
  }

  /** An accepted patch adds no edge. */
  lemma PatchLinksNothing(c: Crypto, entries: seq<Entry>, assign: string -> string)
    requires forall k :: 0 <= k < |entries| ==> entries[k].Some?
    ensures Written(assign, RenamedItems(c.safe, PatchItems(entries))) == {}
  {
    var r := RenamedItems(c.safe, PatchItems(entries));
    assert forall k :: 0 <= k < |r| ==> r[k].targets == [];
  }

  lemma AcceptedAreThere(mac: Mac, entries: seq<Entry>, caller: Caller, grants: set<string>, required: string)
    requires AcceptedUpTo(mac, entries, caller, grants, required, |entries|)
    ensures forall k :: 0 <= k < |entries| ==> entries[k].Some?
  {
    forall k | 0 <= k < |entries| ensures entries[k].Some? {
      assert CheckEntry(mac, entries[k], caller, grants, required) == Equal;
    }
  }

  predicate AllStored(c: Crypto, store: Store, uids: seq<string>) {
    forall k :: 0 <= k < |uids| ==> uids[k] in store && Real(c, uids[k])
  }

  lemma ProvenAreStored(c: Crypto, w: World, ads: seq<string>, caller: Caller, grants: set<string>, required: string)
    requires Inv(c, w) && AllUnforged(c.mac, w, ads, caller.key)
      && Edges.AllUnpack(c.mac, ads, caller, grants, required)
    ensures AllStored(c, w.store, Proven(c.mac, ads, caller, grants, required))
  {
    forall k | 0 <= k < |ads|
      ensures Unpack(c.mac, ads[k], caller, grants, required).Some?
      ensures var uid := Unpack(c.mac, ads[k], caller, grants, required).value.uid; uid in w.store && Real(c, uid)
    {
      ProvenIsStored(c, w, ads[k], caller, grants, required);
    }
  }

  lemma BareChangesNothing(c: Crypto, store: Store, assign: string -> string, uids: seq<string>)
    requires AllStored(c, store, uids)
    ensures PutAll(store, assign, BareItems(uids)) == store
  {
    PutAllNothing(store, assign, BareItems(uids));
  }

  lemma AllStoredJoin(c: Crypto, store: Store, a: seq<string>, b: seq<string>)
    requires AllStored(c, store, a) && AllStored(c, store, b)
    ensures AllStored(c, store, a + b)
  {
  }

  /** An edge request writes nothing of the nodes. */
  lemma EdgesStoreNothing(c: Crypto, w: World, change: Edges.Change, caller: Caller, subjects: seq<string>,
                          incoming: seq<string>, outgoing: seq<string>, assign: string -> string)
    requires Inv(c, w) && Enabled(c, w, ChangeEdges(change, caller, subjects, incoming, outgoing, assign))
    ensures After(c, w, ChangeEdges(change, caller, subjects, incoming, outgoing, assign)).store == w.store
  {
    var grants := GrantsOf(w, caller.uid);
    if Edges.Allowed(c.mac, caller, grants, subjects, incoming, outgoing) {
      var perms := Edges.SubjectPermissions(|incoming|, |outgoing|);
      ProvenAreStored(c, w, subjects, caller, grants, perms);
      ProvenAreStored(c, w, incoming, caller, grants, "o");
      ProvenAreStored(c, w, outgoing, caller, grants, "i");
      var s, i, o := Proven(c.mac, subjects, caller, grants, perms), Proven(c.mac, incoming, caller, grants, "o"),
        Proven(c.mac, outgoing, caller, grants, "i");
      AllStoredJoin(c, w.store, s, i);
      AllStoredJoin(c, w.store, s + i, o);
      BareChangesNothing(c, w.store, assign, s + i + o);
    }
  }

  // ---------------------------------------------------------------------------- the steps

  lemma IssuesStay(c: Crypto, w: World, store: Store)
    requires Inv(c, w) && Keeps(w.store, store)
    ensures forall k :: 0 <= k < |w.issued| ==> IssueOk(store, w.issued[k])
  {
    forall k | 0 <= k < |w.issued| ensures IssueOk(store, w.issued[k]) {
      var i := w.issued[k];
      assert IssueOk(w.store, i);
      NoNullsTwice(w.store[i.says.uid].bits);
    }
  }

  lemma KeptIsWellMade(c: Crypto, s: Store, t: Store)
    requires StoreOk(c, s) && Keeps(s, t) && t.Keys == s.Keys
    ensures StoreOk(c, t)
  {
    forall uid | uid in t ensures WellMade(c, uid, t[uid]) { assert WellMade(c, uid, s[uid]); }
  }

  lemma NewIsWellMade(c: Crypto, s: Store, owner: string, created: Store)
    requires StoreOk(c, s) && forall uid :: uid in created ==> IsCreated(c, s, owner, uid, created[uid])
    ensures StoreOk(c, s + created) && Keeps(s, s + created)
  {
    forall uid | uid in s + created ensures WellMade(c, uid, (s + created)[uid]) {
      if uid in created { assert IsCreated(c, s, owner, uid, created[uid]); } else { assert WellMade(c, uid, s[uid]); }
    }
    forall uid | uid in created ensures uid !in s { assert IsCreated(c, s, owner, uid, created[uid]); }
  }

  ghost predicate Later(w: World, v: World) { Keeps(w.store, v.store) && w.issued <= v.issued }

  /** What every step keeps. */
  ghost predicate Kept(c: Crypto, w: World, v: World) { Inv(c, v) && Later(w, v) }

  lemma StoreKeeps(c: Crypto, w: World, v: World)
    requires Inv(c, w) && v.issued == w.issued && StoreOk(c, v.store) && Keeps(w.store, v.store)
    ensures Kept(c, w, v)
  {
    IssuesStay(c, w, v.store);
  }

  lemma CreateKeeps(c: Crypto, w: World, caller: Caller, parent: string, decoded: seq<Decoded>, items: seq<Item>,
                    resetSgi: bool, generated: string, assign: string -> string)
    requires Sound(c) && Inv(c, w)
    requires Enabled(c, w, CreateNodes(caller, parent, decoded, items, resetSgi, generated, assign))
    ensures Kept(c, w, After(c, w, CreateNodes(caller, parent, decoded, items, resetSgi, generated, assign)))
  {
    var v := After(c, w, CreateNodes(caller, parent, decoded, items, resetSgi, generated, assign));
    if ToCreate(c, w, caller, parent, decoded, items, resetSgi, generated).Some? {
      var sgi := CreationStores(c, w, caller, parent, decoded, items, resetSgi, generated, assign);
      NewIsWellMade(c, w.store, caller.uid, CreatedRecords(c, assign, items, caller.uid, sgi));
    }
    StoreKeeps(c, w, v);
  }

  lemma AddOne(s: Store, uid: string, a: Authz)
    ensures s + map[uid := a] == s[uid := a]
  {
  }

  lemma UserNodeKeeps(c: Crypto, w: World, caller: Caller, generated: string, bits: Bits, assign: string -> string)
    requires Inv(c, w) && Enabled(c, w, CreateUserNode(caller, generated, bits, assign))
    ensures Kept(c, w, After(c, w, CreateUserNode(caller, generated, bits, assign)))
  {
    UserNodeStores(c, w.store, caller, generated, bits, assign);
    var uid := assign(NEW);
    var a := Authz(uid, Some(caller.uid), Some(generated), bits);
    NewIsWellMade(c, w.store, caller.uid, map[uid := a]);
    AddOne(w.store, uid, a);
    StoreKeeps(c, w, After(c, w, CreateUserNode(caller, generated, bits, assign)));
  }

  lemma PatchKeeps(c: Crypto, w: World, caller: Caller, entries: seq<Entry>, assign: string -> string)
    requires Sound(c) && Inv(c, w) && Enabled(c, w, PatchNodes(caller, entries, assign))
    ensures Kept(c, w, After(c, w, PatchNodes(caller, entries, assign)))
  {
    var v := After(c, w, PatchNodes(caller, entries, assign));
    if entries != [] && AcceptedUpTo(c.mac, entries, caller, GrantsOf(w, caller.uid), "w", |entries|) {
      PatchRepeats(c, w, caller, entries, assign);
      PutAllRepeated(w.store, assign, RenamedItems(c.safe, PatchItems(entries)));
      KeptIsWellMade(c, w.store, v.store);
    }
    StoreKeeps(c, w, v);
  }

  lemma EdgesKeep(c: Crypto, w: World, change: Edges.Change, caller: Caller, subjects: seq<string>,
                  incoming: seq<string>, outgoing: seq<string>, assign: string -> string)
    requires Inv(c, w) && Enabled(c, w, ChangeEdges(change, caller, subjects, incoming, outgoing, assign))
    ensures Kept(c, w, After(c, w, ChangeEdges(change, caller, subjects, incoming, outgoing, assign)))
  {
    EdgesStoreNothing(c, w, change, caller, subjects, incoming, outgoing, assign);
    StoreKeeps(c, w, After(c, w, ChangeEdges(change, caller, subjects, incoming, outgoing, assign)));
  }

  lemma AnswerKeeps(c: Crypto, w: World, uid: string, key: string)
    requires Inv(c, w) && uid in w.store
    ensures Kept(c, w, After(c, w, Answer(uid, key)))
  {
    var v := After(c, w, Answer(uid, key));
    assert WellMade(c, uid, w.store[uid]);
    IssuesStay(c, w, v.store);
    assert IssueOk(v.store, Issue(key, w.store[uid]));
  }

  lemma ActionKeeps(c: Crypto, w: World, a: Action)
    requires Sound(c) && Inv(c, w) && Enabled(c, w, a)
    ensures Kept(c, w, After(c, w, a))
  {
    match a
    case CreateNodes(caller, parent, decoded, items, resetSgi, generated, assign) =>
      CreateKeeps(c, w, caller, parent, decoded, items, resetSgi, generated, assign);
    case CreateUserNode(caller, generated, bits, assign) => UserNodeKeeps(c, w, caller, generated, bits, assign);
    case PatchNodes(caller, entries, assign) => PatchKeeps(c, w, caller, entries, assign);
    case ChangeEdges(change, caller, subjects, incoming, outgoing, assign) =>
      EdgesKeep(c, w, change, caller, subjects, incoming, outgoing, assign);
    case ChangeGrants(grants) => StoreKeeps(c, w, After(c, w, ChangeGrants(grants)));
    case Answer(uid, key) => AnswerKeeps(c, w, uid, key);
  }

  /** Every step keeps tokens and store in agreement, and loses or changes nobody's authz fields. */
  lemma StepKeeps(c: Crypto, w: World, v: World)
    requires Sound(c) && Inv(c, w) && Step(c, w, v)
    ensures Inv(c, v) && Later(w, v)
  {
    var a :| StepBy(c, w, a, v);
    ActionKeeps(c, w, a);
  }

  lemma StepOfRun(c: Crypto, run: seq<World>, i: nat)
    requires Sound(c) && Behaviour(c, run) && 0 < i < |run| && Inv(c, run[i - 1])
    ensures Inv(c, run[i]) && Later(run[i - 1], run[i])
  {
    assert StepAt(c, run, i);
    StepKeeps(c, run[i - 1], run[i]);
  }

  lemma {:induction false} InvAlways(c: Crypto, run: seq<World>, i: nat)
    requires Sound(c) && Behaviour(c, run) && i < |run|
    ensures Inv(c, run[i])
  {
    if i > 0 {
      InvAlways(c, run, i - 1);
      StepOfRun(c, run, i);
    }
  }

  lemma LaterOn(u: World, w: World, v: World)
    requires Later(u, w) && Later(w, v)
    ensures Later(u, v)
  {
    KeepsFurther(u.store, w.store, v.store);
  }

  /**
   * A node's owner and share group never change after its creation, and neither do its bits but for nulls
   * turned false.
   */
  lemma {:induction false} AuthzNeverChanges(c: Crypto, run: seq<World>, i: nat, j: nat)
    requires Sound(c) && Behaviour(c, run) && i <= j < |run|
    ensures Later(run[i], run[j])
  {
    if i < j {
      AuthzNeverChanges(c, run, i, j - 1);
      InvAlways(c, run, j - 1);
      StepOfRun(c, run, j);
      LaterOn(run[i], run[j - 1], run[j]);
    }
  }

  /** The token handed out for an issue. */
  function TokenOf(mac: Mac, i: Issue): string
    requires Packable(i.says)
  {
    PackAD(mac, i.says, i.key)
  }

  /**
   * Tokens agree with the store: whenever a token was issued and whatever has happened since, presenting
   * it gives the decision that looking the node up now would give.
   */
  lemma TokenAgreesWithStore(c: Crypto, run: seq<World>, i: nat, j: nat, k: nat, caller: Caller, grants: set<string>,
                             required: string)
    requires Sound(c) && Behaviour(c, run)
    requires i <= j < |run| && k < |run[i].issued| && run[i].issued[k].key == caller.key
    ensures Packable(run[i].issued[k].says) && run[i].issued[k].says.uid in run[j].store
    ensures Unpack(c.mac, TokenOf(c.mac, run[i].issued[k]), caller, grants, required).Some?
       <==> Grants(run[j].store[run[i].issued[k].says.uid], caller, grants, required)
  {
    InvAlways(c, run, j);
    AuthzNeverChanges(c, run, i, j);
    var issue := run[j].issued[k];
    assert issue == run[i].issued[k];
    assert IssueOk(run[j].store, issue);
    assert WellMade(c, issue.says.uid, run[j].store[issue.says.uid]);
    PackUnpack(c.mac, issue.says, caller, grants, required);
    SameAuthzSameDecision(issue.says, run[j].store[issue.says.uid], caller, grants, required);
  }
}
