/** The whole of "PUT nodes" (api/graph.go): the parent's token, the request's validation, the new nodes. */
module CreateNodes {
  import opened Graph
  import opened Upsert
  import opened Subgraph
  import AuthzData

  /** The object tree of a request is what was decoded, as deep as the handler looks. */
  predicate Decodes(n: GraphNode?, d: Decoded)
    reads n, if n == null then [] else n.outEdges
  {
    && (n == null <==> d == Null)
    && (n != null ==>
         && n.uid == d.uid && |n.outEdges| == |d.edges|
         && forall j :: 0 <= j < |n.outEdges| ==>
              && (n.outEdges[j] == null <==> d.edges[j] == Null)
              && (n.outEdges[j] != null ==> n.outEdges[j].uid == d.edges[j].uid))
  }

  /** The node below which the caller asks to create, if the token in the path lets them put edges out of it. */
  function ParentOf(mac: AuthzData.Mac, param: string, caller: Caller, grants: set<string>): Option<AuthzData.Authz> {
    AuthzData.Unpack(mac, param, caller, grants, "o")
  }

  /** The share group of the new nodes: a generated one if asked for, else the parent's. */
  function GroupFor(parent: AuthzData.Authz, resetSgi: bool, generated: string): string {
    if resetSgi then generated else AuthzData.OrEmpty(parent.sgi)
  }

  predicate Valid(decoded: seq<Decoded>) { decoded != [] && CheckUidsArePlaceholders(decoded) }

  datatype Outcome = InvalidParent | InvalidRequest | SelfLink | Done(response: Response)

  /** What the handler upserts for a request below a parent. */
  function ToUpsert(items: seq<Item>, parent: AuthzData.Authz, caller: Caller, resetSgi: bool,
                    generated: string): seq<Item>
    requires items != []
  {
    WithParent(items, parent.uid, caller.uid, GroupFor(parent, resetSgi, generated))
  }

  /** Which requests are carried out, if the database answers. */
  ghost predicate Accepts(mac: AuthzData.Mac, param: string, caller: Caller, grants: set<string>,
                          decoded: seq<Decoded>, items: seq<Item>, resetSgi: bool, generated: string, safe: Naming)
  {
    && ParentOf(mac, param, caller, grants).Some?
    && Valid(decoded) && items != [] && NoneLinksItself(items, |items|)
    && ListOk(safe, ToUpsert(items, ParentOf(mac, param, caller, grants).value, caller, resetSgi, generated))
  }

  lemma ValidIsThere(decoded: seq<Decoded>, nodes: seq<GraphNode?>)
    requires Valid(decoded) && |nodes| == |decoded|
    requires forall i :: 0 <= i < |nodes| ==> Decodes(nodes[i], decoded[i])
    ensures forall i :: 0 <= i < |nodes| ==> nodes[i] != null && Filled(nodes[i])
  {
    forall i | 0 <= i < |nodes| ensures nodes[i] != null && Filled(nodes[i]) {
      assert decoded[i] != Null && CheckUidsArePlaceholders(decoded[i].edges);
    }
  }

  /**
   * "PUT nodes". Nothing is written unless the token in the path lets the caller put edges out of the
   * parent, every node at every depth has a placeholder, none links to itself, and the placeholders are
   * distinct and all defined; otherwise exactly the request's nodes, owned by the caller, and the
   * parent's edges to them.
   */
  method PutNodesRequest(mac: AuthzData.Mac, param: string, caller: Caller, grants: set<string>,
                         decoded: seq<Decoded>, nodes: seq<GraphNode?>, resetSgi: bool, generated: string,
                         db: Database, md5: string -> string, assign: string -> string,
                         answered: bool) returns (r: Outcome)
    requires |nodes| == |decoded| && forall i :: 0 <= i < |nodes| ==> Decodes(nodes[i], decoded[i])
    requires forall i, k :: 0 <= i < k < |nodes| && nodes[i] != null ==> nodes[i] != nodes[k]
    requires ParentOf(mac, param, caller, grants).Some? && Valid(decoded) ==>
      Separates(NamingOf(md5),
                ToUpsert(Items(nodes), ParentOf(mac, param, caller, grants).value, caller, resetSgi, generated))
    modifies db, nodes
    ensures r.InvalidParent? <==> ParentOf(mac, param, caller, grants).None?
    ensures r.InvalidRequest? <==> ParentOf(mac, param, caller, grants).Some? && !Valid(decoded)
    ensures r.SelfLink? <==>
      ParentOf(mac, param, caller, grants).Some? && Valid(decoded) && !NoneLinksItself(old(Items(nodes)), |nodes|)
    ensures r.Done? ==>
      var all := ToUpsert(old(Items(nodes)), ParentOf(mac, param, caller, grants).value, caller, resetSgi, generated);
      && (r.response.Created? <==> answered && ListOk(NamingOf(md5), all))
      && (r.response.Created? ==> Upserted(old(db.edges), old(db.store), db, md5, assign, all))
      && (r.response.Created? ==> Answers(NamingOf(md5), assign, all, r.response.nodes))
    ensures r.Done? && r.response.Created? <==>
      answered && Accepts(mac, param, caller, grants, decoded, old(Items(nodes)), resetSgi, generated, NamingOf(md5))
    ensures !r.Done? || !r.response.Created? ==> unchanged(db)
  {
    var parent := ParentOf(mac, param, caller, grants);
    if parent.None? {
      return InvalidParent;
    }
    if !Valid(decoded) {
      return InvalidRequest;
    }
    ghost var items := Items(nodes);
    ValidIsThere(decoded, nodes);
    var newnodes: seq<GraphNode> := nodes;
    assert CutSoFar(newnodes, items, caller.uid, GroupFor(parent.value, resetSgi, generated), 0);
    var response := PutNodes(newnodes, parent.value.uid, caller.uid, GroupFor(parent.value, resetSgi, generated),
                             db, md5, assign, answered, items);
    r := if response.None? then SelfLink else Done(response.value);
  }
}
