/** Adding and removing edges between existing nodes (requests/edges.go, api/graph.go, services/db.go). */
module Edges {
  import opened Graph
  import opened AuthzData

  type Edge = (string, string)

  /** `UpdateType`. */
  datatype Change = Add | Delete

  /** What is written for one node: its uid and its out-edges. */
  datatype EdgeNode = EdgeNode(uid: string, targets: seq<string>)

  // ---------------------------------------------------------------------- the mutation

  function Cross(sources: seq<string>, targets: seq<string>): set<Edge> {
    set i, j | 0 <= i < |sources| && 0 <= j < |targets| :: (sources[i], targets[j])
  }

  /** Every incoming node to every subject, and every subject to every outgoing node. */
  function Wanted(subjects: seq<string>, incoming: seq<string>, outgoing: seq<string>): set<Edge> {
    Cross(incoming, subjects) + Cross(subjects, outgoing)
  }

  /** An edge that a request asks for: into one of its subjects, or out of one. */
  predicate AskedFor(subjects: seq<string>, incoming: seq<string>, outgoing: seq<string>, from: string, to: string) {
    (from in incoming && to in subjects) || (from in subjects && to in outgoing)
  }

  /** The edges asked for are there after an addition and gone after a deletion, and no other has changed. */
  ghost predicate ChangedExactly(before: set<Edge>, after: set<Edge>, change: Change, subjects: seq<string>,
                                 incoming: seq<string>, outgoing: seq<string>)
  {
    forall e: Edge ::
      if AskedFor(subjects, incoming, outgoing, e.0, e.1) then e in after <==> change == Add
      else e in after <==> e in before
  }

  lemma WantedIsAskedFor(subjects: seq<string>, incoming: seq<string>, outgoing: seq<string>)
    ensures forall e: Edge :: e in Wanted(subjects, incoming, outgoing)
                          <==> AskedFor(subjects, incoming, outgoing, e.0, e.1)
  {
    forall e: Edge
      ensures e in Wanted(subjects, incoming, outgoing) <==> AskedFor(subjects, incoming, outgoing, e.0, e.1)
    {
      CrossMember(incoming, subjects, e);
      CrossMember(subjects, outgoing, e);
    }
  }

  lemma CrossMember(sources: seq<string>, targets: seq<string>, e: Edge)
    ensures e in Cross(sources, targets) <==> e.0 in sources && e.1 in targets
  {
    if e.0 in sources && e.1 in targets {
      var i, j :| 0 <= i < |sources| && 0 <= j < |targets| && sources[i] == e.0 && targets[j] == e.1;
      assert (sources[i], targets[j]) in Cross(sources, targets);
    }
  }

  function Mentioned(list: seq<EdgeNode>): set<Edge> {
    set i, j | 0 <= i < |list| && 0 <= j < |list[i].targets| :: (list[i].uid, list[i].targets[j])
  }

  lemma MentionedAppend(list: seq<EdgeNode>, n: EdgeNode)
    ensures Mentioned(list + [n]) == Mentioned(list) + set j | 0 <= j < |n.targets| :: (n.uid, n.targets[j])
  {
    var all := list + [n];
    forall e | e in Mentioned(list) ensures e in Mentioned(all) {
      var i, j :| 0 <= i < |list| && 0 <= j < |list[i].targets| && e == (list[i].uid, list[i].targets[j]);
      assert all[i] == list[i];
    }
    forall j | 0 <= j < |n.targets| ensures (n.uid, n.targets[j]) in Mentioned(all) {
      assert all[|list|] == n;
    }
  }

  lemma CrossStep(sources: seq<string>, k: nat, targets: seq<string>)
    requires k < |sources|
    ensures Cross(sources[..k + 1], targets)
         == Cross(sources[..k], targets) + set j | 0 <= j < |targets| :: (sources[k], targets[j])
  {
    var front := sources[..k + 1];
    forall e | e in Cross(sources[..k], targets) ensures e in Cross(front, targets) {
      var i, j :| 0 <= i < k && 0 <= j < |targets| && e == (sources[..k][i], targets[j]);
      assert front[i] == sources[..k][i];
    }
    forall j | 0 <= j < |targets| ensures (sources[k], targets[j]) in Cross(front, targets) {
      assert front[k] == sources[k];
    }
    forall e | e in Cross(front, targets)
      ensures e in Cross(sources[..k], targets) || exists j :: 0 <= j < |targets| && e == (sources[k], targets[j])
    {
      var i, j :| 0 <= i < |front| && 0 <= j < |targets| && e == (front[i], targets[j]);
      if i < k { assert sources[..k][i] == front[i]; }
    }
  }

  /** One entry per source, each with edges to all the targets. */
  method AddEdges(sources: seq<string>, targets: seq<string>, mutateList: seq<EdgeNode>) returns (list: seq<EdgeNode>)
    ensures Mentioned(list) == Mentioned(mutateList) + Cross(sources, targets)
  {
    list := mutateList;
    for k := 0 to |sources|
      invariant Mentioned(list) == Mentioned(mutateList) + Cross(sources[..k], targets)
    {
      var tmpN := EdgeNode(sources[k], targets);
      MentionedAppend(list, tmpN);
      CrossStep(sources, k, targets);
      list := list + [tmpN];
    }
    assert sources[..|sources|] == sources;
  }

  method AddIncomingEdges(nodeUids: seq<string>, incomingUids: seq<string>, mutateList: seq<EdgeNode>)
      returns (list: seq<EdgeNode>)
    ensures Mentioned(list) == Mentioned(mutateList) + Cross(incomingUids, nodeUids)
  {
    list := mutateList;
    if |incomingUids| > 0 {
      list := AddEdges(incomingUids, nodeUids, mutateList);
    }
  }

  method AddOutgoingEdges(nodeUids: seq<string>, outgoingUids: seq<string>, mutateList: seq<EdgeNode>)
      returns (list: seq<EdgeNode>)
    ensures Mentioned(list) == Mentioned(mutateList) + Cross(nodeUids, outgoingUids)
  {
    list := mutateList;
    if |outgoingUids| > 0 {
      list := AddEdges(nodeUids, outgoingUids, mutateList);
    }
  }

  /** The edges after an update. */
  function Updated(edges: set<Edge>, change: Change, subjects: seq<string>, incoming: seq<string>,
                   outgoing: seq<string>): set<Edge>
  {
    if change == Add then edges + Wanted(subjects, incoming, outgoing) else edges - Wanted(subjects, incoming, outgoing)
  }

  /** Dgraph, as far as edges go. */
  class Database {
    var edges: set<Edge>

    method Mutate(list: seq<EdgeNode>, change: Change)
      modifies this
      ensures edges == if change == Add then old(edges) + Mentioned(list) else old(edges) - Mentioned(list)
    {
      edges := if change == Add then edges + Mentioned(list) else edges - Mentioned(list);
    }

    /**
     * `UpdateEdges`; after a deletion a second mutation stamps the modification time on every node
     * named, and touches no edge.
     */
    method UpdateEdges(change: Change, nodeUids: seq<string>, srcUids: seq<string>, destUids: seq<string>)
      modifies this
      ensures edges == Updated(old(edges), change, nodeUids, srcUids, destUids)
      ensures ChangedExactly(old(edges), edges, change, nodeUids, srcUids, destUids)
    {
      WantedIsAskedFor(nodeUids, srcUids, destUids);
      var updateList := AddIncomingEdges(nodeUids, srcUids, []);
      updateList := AddOutgoingEdges(nodeUids, destUids, updateList);
      Mutate(updateList, change);
      if change == Delete {
        var setList := EdgeNodes(nodeUids + srcUids + destUids);
        Mutate(setList, Add);
      }
    }
  }

  method EdgeNodes(uids: seq<string>) returns (setList: seq<EdgeNode>)
    ensures Mentioned(setList) == {}
  {
    setList := [];
    for k := 0 to |uids|
      invariant Mentioned(setList) == {}
    {
      MentionedAppend(setList, EdgeNode(uids[k], []));
      setList := setList + [EdgeNode(uids[k], [])];
    }
  }

  /** Adding a request's edges and removing them again leaves what was there, less those edges. */
  lemma AddThenRemove(edges: set<Edge>, subjects: seq<string>, incoming: seq<string>, outgoing: seq<string>)
    ensures Updated(Updated(edges, Add, subjects, incoming, outgoing), Delete, subjects, incoming, outgoing)
         == edges - Wanted(subjects, incoming, outgoing)
    ensures Updated(Updated(edges, Add, subjects, incoming, outgoing), Delete, subjects, incoming, outgoing) == edges
       <==> edges !! Wanted(subjects, incoming, outgoing)
  {
    var wanted := Wanted(subjects, incoming, outgoing);
    if !(edges !! wanted) {
      var e :| e in edges && e in wanted;
      assert e !in edges - wanted;
    } else {
      assert edges - wanted == edges;
    }
  }

  // ----------------------------------------------------------------------- the request

  /** The permission letters a subject needs: "i" if edges come in, "o" if edges go out. */
  function SubjectPermissions(incoming: nat, outgoing: nat): string {
    (if incoming > 0 then "i" else "") + (if outgoing > 0 then "o" else "")
  }

  lemma SubjectPermissionsAsk(b: Bits, incoming: nat, outgoing: nat)
    requires HasAll(b, SubjectPermissions(incoming, outgoing))
    ensures incoming > 0 ==> IsSet(b.i)
    ensures outgoing > 0 ==> IsSet(b.o)
  {
    var p := SubjectPermissions(incoming, outgoing);
    if incoming > 0 {
      assert p[0] == 'i';
      assert IsSet(BitOf(b, p[0]));
    }
    if outgoing > 0 {
      assert p[|p| - 1] == 'o';
      assert IsSet(BitOf(b, p[|p| - 1]));
    }
  }

  /** The caller may put an edge out of this node: owner, sys, or shared with the bit. */
  predicate MaySource(a: Authz, caller: Caller, grants: set<string>) {
    a.own == Some(caller.uid) || caller.role == "sys" || (OrEmpty(a.sgi) in grants && a.bits.o == Some(true))
  }

  predicate MayTarget(a: Authz, caller: Caller, grants: set<string>) {
    a.own == Some(caller.uid) || caller.role == "sys" || (OrEmpty(a.sgi) in grants && a.bits.i == Some(true))
  }

  /** Every token in the list is good for these permissions. */
  predicate AllUnpack(mac: Mac, ads: seq<string>, caller: Caller, grants: set<string>, required: string) {
    forall k :: 0 <= k < |ads| ==> Unpack(mac, ads[k], caller, grants, required).Some?
  }

  /** The uids that the tokens prove. */
  predicate ProvenUids(mac: Mac, ads: seq<string>, caller: Caller, grants: set<string>, required: string,
                       uids: seq<string>)
  {
    && |uids| == |ads|
    && forall k :: 0 <= k < |ads| ==>
         && Unpack(mac, ads[k], caller, grants, required).Some?
         && uids[k] == Unpack(mac, ads[k], caller, grants, required).value.uid
  }

  /** Which requests are carried out: some edge is asked for, and every token is good for its end of the edges. */
  predicate Allowed(mac: Mac, caller: Caller, grants: set<string>, subjects: seq<string>, incoming: seq<string>,
                    outgoing: seq<string>)
  {
    && |subjects| > 0 && (|incoming| > 0 || |outgoing| > 0)
    && AllUnpack(mac, subjects, caller, grants, SubjectPermissions(|incoming|, |outgoing|))
    && AllUnpack(mac, incoming, caller, grants, "o")
    && AllUnpack(mac, outgoing, caller, grants, "i")
  }

  /** A decoded request; an absent list is an empty one. */
  class EdgesRequest {
    const subjectIds: array<string>
    const incomingIds: array<string>
    const outgoingIds: array<string>

    constructor (subjects: array<string>, incoming: array<string>, outgoing: array<string>)
      ensures subjectIds == subjects && incomingIds == incoming && outgoingIds == outgoing
    {
      subjectIds, incomingIds, outgoingIds := subjects, incoming, outgoing;
    }

    predicate Separate() {
      subjectIds != incomingIds && subjectIds != outgoingIds && incomingIds != outgoingIds
    }

    function Perms(): string { SubjectPermissions(incomingIds.Length, outgoingIds.Length) }

    /** Which requests unpack: every token good for what its end of the edges needs. */
    predicate Authorised(mac: Mac, caller: Caller, grants: set<string>)
      reads subjectIds, incomingIds, outgoingIds
    {
      && subjectIds.Length > 0
      && AllUnpack(mac, subjectIds[..], caller, grants, Perms())
      && AllUnpack(mac, incomingIds[..], caller, grants, "o")
      && AllUnpack(mac, outgoingIds[..], caller, grants, "i")
    }

    method AuthzDataUnpack(mac: Mac, caller: Caller, grants: set<string>) returns (ok: bool)
      requires Separate()
      modifies subjectIds, incomingIds, outgoingIds
      ensures ok <==> old(Authorised(mac, caller, grants))
      ensures ok ==> ProvenUids(mac, old(subjectIds[..]), caller, grants, Perms(), subjectIds[..])
      ensures ok ==> ProvenUids(mac, old(incomingIds[..]), caller, grants, "o", incomingIds[..])
      ensures ok ==> ProvenUids(mac, old(outgoingIds[..]), caller, grants, "i", outgoingIds[..])
    {
      var permissionsForSubjectNodes := "";
      if incomingIds.Length > 0 {
        permissionsForSubjectNodes := permissionsForSubjectNodes + "i";
      }
      if outgoingIds.Length > 0 {
        permissionsForSubjectNodes := permissionsForSubjectNodes + "o";
      }
      assert permissionsForSubjectNodes == Perms();
      ok := UnpackRequired(mac, subjectIds, caller, grants, permissionsForSubjectNodes);
      if ok {
        ok := UnpackOptional(mac, incomingIds, caller, grants, "o");
      }
      if ok {
        ok := UnpackOptional(mac, outgoingIds, caller, grants, "i");
      }
    }

    predicate Validate() {
      subjectIds.Length > 0 && (incomingIds.Length > 0 || outgoingIds.Length > 0)
    }
  }

  /** `AuthzDataUnpackADStringSlice`: an empty list is refused. */
  method UnpackRequired(mac: Mac, ids: array<string>, caller: Caller, grants: set<string>, perms: string)
      returns (ok: bool)
    modifies ids
    ensures ok <==> ids.Length > 0 && AllUnpack(mac, old(ids[..]), caller, grants, perms)
    ensures ok ==> ProvenUids(mac, old(ids[..]), caller, grants, perms, ids[..])
  {
    var nodes;
    ok, nodes := UnpackSlice(mac, ids, caller, grants, perms);
    if !ok && ids.Length > 0 {
      assert Unpack(mac, old(ids[..])[|nodes|], caller, grants, perms) == None;
    }
  }

  /** `authzOptionalIDs`: an absent list passes. */
  method UnpackOptional(mac: Mac, ids: array<string>, caller: Caller, grants: set<string>, perms: string)
      returns (ok: bool)
    modifies ids
    ensures ok <==> AllUnpack(mac, old(ids[..]), caller, grants, perms)
    ensures ok ==> ProvenUids(mac, old(ids[..]), caller, grants, perms, ids[..])
  {
    if ids.Length == 0 { return true; }
    ok := UnpackRequired(mac, ids, caller, grants, perms);
  }

  // ------------------------------------------------------------------------- the theorem

  /** One of the tokens, valid for the caller, is for this node and lets the caller put edges out of it. */
  ghost predicate SourceProven(mac: Mac, ads: seq<string>, caller: Caller, grants: set<string>, uid: string) {
    exists k :: 0 <= k < |ads| && ProvesSource(mac, ads[k], caller, grants, uid)
  }

  ghost predicate TargetProven(mac: Mac, ads: seq<string>, caller: Caller, grants: set<string>, uid: string) {
    exists k :: 0 <= k < |ads| && ProvesTarget(mac, ads[k], caller, grants, uid)
  }

  predicate ProvesSource(mac: Mac, ad: string, caller: Caller, grants: set<string>, uid: string) {
    var a := NodeFromAD(mac, ad, caller.key);
    a.Some? && a.value.uid == uid && MaySource(a.value, caller, grants)
  }

  predicate ProvesTarget(mac: Mac, ad: string, caller: Caller, grants: set<string>, uid: string) {
    var a := NodeFromAD(mac, ad, caller.key);
    a.Some? && a.value.uid == uid && MayTarget(a.value, caller, grants)
  }

  /** What unpacks is what the token says, but for its bits, and the token grants. */
  lemma UnpackedProves(mac: Mac, ad: string, caller: Caller, grants: set<string>, required: string)
    requires Unpack(mac, ad, caller, grants, required).Some?
    ensures NodeFromAD(mac, ad, caller.key).Some?
    ensures var a, t := Unpack(mac, ad, caller, grants, required).value, NodeFromAD(mac, ad, caller.key).value;
      a.uid == t.uid && a.sgi == t.sgi && Grants(t, caller, grants, required)
  {
  }

  lemma LettersProve(a: Authz, caller: Caller, grants: set<string>)
    ensures Grants(a, caller, grants, "o") ==> MaySource(a, caller, grants)
    ensures Grants(a, caller, grants, "i") ==> MayTarget(a, caller, grants)
  {
    if HasAll(a.bits, "o") { assert IsSet(BitOf(a.bits, "o"[0])); }
    if HasAll(a.bits, "i") { assert IsSet(BitOf(a.bits, "i"[0])); }
  }

  lemma SubjectLettersProve(a: Authz, caller: Caller, grants: set<string>, incoming: nat, outgoing: nat)
    requires Grants(a, caller, grants, SubjectPermissions(incoming, outgoing))
    ensures incoming > 0 ==> MayTarget(a, caller, grants)
    ensures outgoing > 0 ==> MaySource(a, caller, grants)
  {
    if HasAll(a.bits, SubjectPermissions(incoming, outgoing)) {
      SubjectPermissionsAsk(a.bits, incoming, outgoing);
    }
  }

  /** A token accepted for one end of an edge proves that end. */
  lemma EndProven(mac: Mac, ad: string, caller: Caller, grants: set<string>, uid: string)
    ensures Unpack(mac, ad, caller, grants, "o").Some? && Unpack(mac, ad, caller, grants, "o").value.uid == uid ==>
      ProvesSource(mac, ad, caller, grants, uid)
    ensures Unpack(mac, ad, caller, grants, "i").Some? && Unpack(mac, ad, caller, grants, "i").value.uid == uid ==>
      ProvesTarget(mac, ad, caller, grants, uid)
  {
    if Unpack(mac, ad, caller, grants, "o").Some? || Unpack(mac, ad, caller, grants, "i").Some? {
      LettersProve(NodeFromAD(mac, ad, caller.key).value, caller, grants);
    }
  }

  lemma SubjectProven(mac: Mac, ad: string, caller: Caller, grants: set<string>, uid: string, incoming: nat,
                      outgoing: nat, perms: string)
    requires perms == SubjectPermissions(incoming, outgoing)
    requires Unpack(mac, ad, caller, grants, perms).Some? && Unpack(mac, ad, caller, grants, perms).value.uid == uid
    ensures incoming > 0 ==> ProvesTarget(mac, ad, caller, grants, uid)
    ensures outgoing > 0 ==> ProvesSource(mac, ad, caller, grants, uid)
  {
    UnpackedProves(mac, ad, caller, grants, perms);
    SubjectLettersProve(NodeFromAD(mac, ad, caller.key).value, caller, grants, incoming, outgoing);
  }

  /** A token that lets the caller put edges into its node if there are any, and out of it if there are any. */
  predicate SubjectMay(mac: Mac, ad: string, caller: Caller, grants: set<string>, incoming: nat, outgoing: nat) {
    var a := NodeFromAD(mac, ad, caller.key);
    && a.Some?
    && (incoming > 0 ==> MayTarget(a.value, caller, grants))
    && (outgoing > 0 ==> MaySource(a.value, caller, grants))
  }

  lemma SubjectExactly(mac: Mac, ad: string, caller: Caller, grants: set<string>, incoming: nat, outgoing: nat)
    requires incoming > 0 || outgoing > 0
    ensures Unpack(mac, ad, caller, grants, SubjectPermissions(incoming, outgoing)).Some?
       <==> SubjectMay(mac, ad, caller, grants, incoming, outgoing)
  {
    if NodeFromAD(mac, ad, caller.key).Some? {
      LettersGrant(NodeFromAD(mac, ad, caller.key).value, caller, grants, incoming, outgoing);
    }
  }

  lemma LettersGrant(a: Authz, caller: Caller, grants: set<string>, incoming: nat, outgoing: nat)
    requires incoming > 0 || outgoing > 0
    ensures Grants(a, caller, grants, SubjectPermissions(incoming, outgoing))
       <==> (incoming > 0 ==> MayTarget(a, caller, grants)) && (outgoing > 0 ==> MaySource(a, caller, grants))
  {
    GrantsSpelledOut(a, caller, grants);
    TwoLetters(a.bits);
    assert SubjectPermissions(incoming, outgoing)
        == if incoming > 0 && outgoing > 0 then "io" else if incoming > 0 then "i" else "o";
  }

  lemma TwoLetters(b: Bits)
    ensures HasAll(b, "io") <==> HasAll(b, "i") && HasAll(b, "o")
  {
    OneLetter(b, 'i');
    OneLetter(b, 'o');
    assert "io"[0] == 'i' && "io"[1] == 'o';
  }

  lemma EndExactly(mac: Mac, ad: string, caller: Caller, grants: set<string>)
    ensures Unpack(mac, ad, caller, grants, "o").Some?
       <==> NodeFromAD(mac, ad, caller.key).Some? && MaySource(NodeFromAD(mac, ad, caller.key).value, caller, grants)
    ensures Unpack(mac, ad, caller, grants, "i").Some?
       <==> NodeFromAD(mac, ad, caller.key).Some? && MayTarget(NodeFromAD(mac, ad, caller.key).value, caller, grants)
  {
    if NodeFromAD(mac, ad, caller.key).Some? {
      GrantsSpelledOut(NodeFromAD(mac, ad, caller.key).value, caller, grants);
    }
  }

  /**
   * Which edge requests are carried out: those that name a subject and a neighbour where every token, by what it
   * says, lets the caller put edges out of the sources and into the targets.
   */
  lemma AllowedExactly(mac: Mac, caller: Caller, grants: set<string>, subjects: seq<string>, incoming: seq<string>,
                       outgoing: seq<string>)
    ensures Allowed(mac, caller, grants, subjects, incoming, outgoing)
       <==> && subjects != [] && incoming + outgoing != []
            && (forall k :: 0 <= k < |subjects| ==>
                  SubjectMay(mac, subjects[k], caller, grants, |incoming|, |outgoing|))
            && (forall k :: 0 <= k < |incoming| ==>
                  var a := NodeFromAD(mac, incoming[k], caller.key); a.Some? && MaySource(a.value, caller, grants))
            && (forall k :: 0 <= k < |outgoing| ==>
                  var a := NodeFromAD(mac, outgoing[k], caller.key); a.Some? && MayTarget(a.value, caller, grants))
  {
    if |incoming| > 0 || |outgoing| > 0 {
      forall k | 0 <= k < |subjects|
        ensures Unpack(mac, subjects[k], caller, grants, SubjectPermissions(|incoming|, |outgoing|)).Some?
           <==> SubjectMay(mac, subjects[k], caller, grants, |incoming|, |outgoing|)
      {
        SubjectExactly(mac, subjects[k], caller, grants, |incoming|, |outgoing|);
      }
    }
    forall k | 0 <= k < |incoming|
      ensures Unpack(mac, incoming[k], caller, grants, "o").Some?
         <==> var a := NodeFromAD(mac, incoming[k], caller.key); a.Some? && MaySource(a.value, caller, grants)
    {
      EndExactly(mac, incoming[k], caller, grants);
    }
    forall k | 0 <= k < |outgoing|
      ensures Unpack(mac, outgoing[k], caller, grants, "i").Some?
         <==> var a := NodeFromAD(mac, outgoing[k], caller.key); a.Some? && MayTarget(a.value, caller, grants)
    {
      EndExactly(mac, outgoing[k], caller, grants);
    }
  }

  /** Every incoming edge of an accepted request has its source checked for "o" and its target for "i". */
  lemma IncomingChecked(mac: Mac, caller: Caller, grants: set<string>, subjectAds: seq<string>,
                        incomingAds: seq<string>, subjects: seq<string>, incoming: seq<string>, outgoing: nat,
                        i: nat, j: nat)
    requires ProvenUids(mac, subjectAds, caller, grants, SubjectPermissions(|incoming|, outgoing), subjects)
    requires ProvenUids(mac, incomingAds, caller, grants, "o", incoming)
    requires i < |incoming| && j < |subjects|
    ensures i < |incomingAds| && ProvesSource(mac, incomingAds[i], caller, grants, incoming[i])
    ensures j < |subjectAds| && ProvesTarget(mac, subjectAds[j], caller, grants, subjects[j])
  {
    EndProven(mac, incomingAds[i], caller, grants, incoming[i]);
    SubjectProven(mac, subjectAds[j], caller, grants, subjects[j], |incoming|, outgoing,
                  SubjectPermissions(|incoming|, outgoing));
  }

  /** And so has every outgoing edge. */
  lemma OutgoingChecked(mac: Mac, caller: Caller, grants: set<string>, subjectAds: seq<string>,
                        outgoingAds: seq<string>, subjects: seq<string>, incoming: nat, outgoing: seq<string>,
                        i: nat, j: nat)
    requires ProvenUids(mac, subjectAds, caller, grants, SubjectPermissions(incoming, |outgoing|), subjects)
    requires ProvenUids(mac, outgoingAds, caller, grants, "i", outgoing)
    requires i < |subjects| && j < |outgoing|
    ensures i < |subjectAds| && ProvesSource(mac, subjectAds[i], caller, grants, subjects[i])
    ensures j < |outgoingAds| && ProvesTarget(mac, outgoingAds[j], caller, grants, outgoing[j])
  {
    SubjectProven(mac, subjectAds[i], caller, grants, subjects[i], incoming, |outgoing|,
                  SubjectPermissions(incoming, |outgoing|));
    EndProven(mac, outgoingAds[j], caller, grants, outgoing[j]);
  }

  lemma ProvenAmong(mac: Mac, a: seq<string>, b: seq<string>, ad: string, caller: Caller, grants: set<string>,
                    uid: string)
    requires ad in a || ad in b
    ensures ProvesSource(mac, ad, caller, grants, uid) ==> SourceProven(mac, a + b, caller, grants, uid)
    ensures ProvesTarget(mac, ad, caller, grants, uid) ==> TargetProven(mac, a + b, caller, grants, uid)
  {
    assert ad in a + b;
  }

  /** Every edge of an accepted request has its source checked for "o" and its target for "i". */
  lemma EveryEdgeIsChecked(mac: Mac, caller: Caller, grants: set<string>, subjectAds: seq<string>,
                           incomingAds: seq<string>, outgoingAds: seq<string>, subjects: seq<string>,
                           incoming: seq<string>, outgoing: seq<string>, e: Edge)
    requires ProvenUids(mac, subjectAds, caller, grants, SubjectPermissions(|incoming|, |outgoing|), subjects)
    requires ProvenUids(mac, incomingAds, caller, grants, "o", incoming)
    requires ProvenUids(mac, outgoingAds, caller, grants, "i", outgoing)
    requires e in Wanted(subjects, incoming, outgoing)
    ensures SourceProven(mac, incomingAds + subjectAds, caller, grants, e.0)
    ensures TargetProven(mac, subjectAds + outgoingAds, caller, grants, e.1)
  {
    if e in Cross(incoming, subjects) {
      var i, j :| 0 <= i < |incoming| && 0 <= j < |subjects| && e == (incoming[i], subjects[j]);
      IncomingChecked(mac, caller, grants, subjectAds, incomingAds, subjects, incoming, |outgoing|, i, j);
      ProvenAmong(mac, incomingAds, subjectAds, incomingAds[i], caller, grants, e.0);
      ProvenAmong(mac, subjectAds, outgoingAds, subjectAds[j], caller, grants, e.1);
    } else {
      var i, j :| 0 <= i < |subjects| && 0 <= j < |outgoing| && e == (subjects[i], outgoing[j]);
      OutgoingChecked(mac, caller, grants, subjectAds, outgoingAds, subjects, |incoming|, outgoing, i, j);
      ProvenAmong(mac, incomingAds, subjectAds, subjectAds[i], caller, grants, e.0);
      ProvenAmong(mac, subjectAds, outgoingAds, outgoingAds[j], caller, grants, e.1);
    }
  }

  /**
   * "PUT edges" and "PATCH edges". An authorised request with at least one direction changes exactly the
   * edges incoming x subjects and subjects x outgoing, each with a checked source and target; any other
   * request changes nothing.
   */
  method HandleEdges(mac: Mac, req: EdgesRequest, change: Change, caller: Caller, grants: set<string>, db: Database)
      returns (ok: bool)
    requires req.Separate()
    modifies db, req.subjectIds, req.incomingIds, req.outgoingIds
    ensures ok
       <==> Allowed(mac, caller, grants, old(req.subjectIds[..]), old(req.incomingIds[..]), old(req.outgoingIds[..]))
    ensures !ok ==> db.edges == old(db.edges)
    ensures ok ==>
      db.edges == Updated(old(db.edges), change, req.subjectIds[..], req.incomingIds[..], req.outgoingIds[..])
    ensures ok ==>
      ChangedExactly(old(db.edges), db.edges, change, req.subjectIds[..], req.incomingIds[..], req.outgoingIds[..])
    ensures ok ==> ProvenUids(mac, old(req.subjectIds[..]), caller, grants, req.Perms(), req.subjectIds[..])
    ensures ok ==> ProvenUids(mac, old(req.incomingIds[..]), caller, grants, "o", req.incomingIds[..])
    ensures ok ==> ProvenUids(mac, old(req.outgoingIds[..]), caller, grants, "i", req.outgoingIds[..])
    ensures ok ==> forall e :: e in Wanted(req.subjectIds[..], req.incomingIds[..], req.outgoingIds[..]) ==>
      && SourceProven(mac, old(req.incomingIds[..]) + old(req.subjectIds[..]), caller, grants, e.0)
      && TargetProven(mac, old(req.subjectIds[..]) + old(req.outgoingIds[..]), caller, grants, e.1)
  {
    ok := req.AuthzDataUnpack(mac, caller, grants);
    ok := ok && req.Validate();
    if ok {
      db.UpdateEdges(change, req.subjectIds[..], req.incomingIds[..], req.outgoingIds[..]);
      forall e | e in Wanted(req.subjectIds[..], req.incomingIds[..], req.outgoingIds[..])
        ensures SourceProven(mac, old(req.incomingIds[..]) + old(req.subjectIds[..]), caller, grants, e.0)
        ensures TargetProven(mac, old(req.subjectIds[..]) + old(req.outgoingIds[..]), caller, grants, e.1)
      {
        EveryEdgeIsChecked(mac, caller, grants, old(req.subjectIds[..]), old(req.incomingIds[..]),
                           old(req.outgoingIds[..]),
                           req.subjectIds[..], req.incomingIds[..], req.outgoingIds[..], e);
      }
    }
  }
}
