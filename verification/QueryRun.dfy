/**
 * Answering a built query: an abstract Dgraph over a snapshot of the store, then the response layer.
 */
module QueryRun {
  import opened Graph
  import opened FilterCompiler
  import opened Dql
  import opened ReadFilter
  import opened Query
  import opened QueryParts

  /** The store at one instant: its nodes in uid order, and the nodes each user owns or was given. */
  datatype Snapshot = Snapshot(nodes: seq<Node>, owned: map<string, seq<string>>, shared: map<string, seq<string>>)

  /**
   * What Dgraph decides and the model leaves open: single tests, the order of two values of one
   * predicate, the order of two uids, and which of the stored vectors are nearest.
   */
  datatype Dgraph = Dgraph(tests: Tests, before: (Option<string>, Option<string>) -> bool,
                           later: (string, string) -> bool,
                           nearest: (string, nat, seq<(string, Option<string>)>) -> set<string>)

  /** The root and the filter once parsed and with their variables replaced. */
  datatype RootTest = ByVector(vector: string, topK: nat) | ByRadius(geo: Geo) | ByFilter(f: Filter)
                    | ByReach(ids: seq<string>, depth: nat, edge: EdgeType)

  datatype Prepared = Prepared(root: RootTest, filter: Filter)

  /** Where a built query starts, as Dgraph reads it off the text sent and the variables bound. */
  function PrepareRoot(b: Built): Option<RootTest> {
    match b.root
    case Nearest(vector, topK) =>
      (match ReadSimilar(SimilarArgs(topK, vector)) case None => None case Some((k, v)) => Some(ByVector(v, k)))
    case InRadius(g) =>
      (match ParseFilter(Print(Near(g))) case Some(Within(geo)) => Some(ByRadius(geo)) case _ => None)
    case Found(text) =>
      (match ParseFilter(text) case None => None case Some(f) => Some(ByFilter(Resolve(f, b.vars))))
    case Reached(_, _, et) =>
      (match (BoundIds(b.vars), BoundDepth(b.vars), ReadEdge(EdgeName(et)))
       case (Some(ids), Some(depth), Some(edge)) => Some(ByReach(ids, depth, edge))
       case _ => None)
    case Listed(_) =>
      (match BoundIds(b.vars) case None => None case Some(ids) => Some(ByReach(ids, 0, NodeNode)))
  }

  function BoundIds(vars: map<string, string>): Option<seq<string>> {
    if "$ids" in vars then ReadIds(vars["$ids"]) else None
  }

  function BoundDepth(vars: map<string, string>): Option<nat> {
    if "$rdepth" in vars then ReadCount(vars["$rdepth"]) else None
  }

  function Prepare(b: Built): Option<Prepared> {
    match (ParseFilter(b.filter), PrepareRoot(b))
    case (Some(f), Some(root)) => Some(Prepared(root, Resolve(f, b.vars)))
    case _ => None
  }

  function Find(nodes: seq<Node>, uid: string): Option<Node> {
    if nodes == [] then None else if nodes[0].uid == uid then Some(nodes[0]) else Find(nodes[1..], uid)
  }

  /** The uids one step along the traversed predicate. */
  function Successors(s: Snapshot, et: EdgeType, uid: string): seq<string> {
    match et
    case NodeNode => (match Find(s.nodes, uid) case None => [] case Some(n) => n.out)
    case UserNode => if uid in s.owned then s.owned[uid] else []
    case UserShare => if uid in s.shared then s.shared[uid] else []
    case UserSharedWith => []
  }

  function StepAll(s: Snapshot, et: EdgeType, uids: seq<string>): seq<string> {
    if uids == [] then [] else Successors(s, et, uids[0]) + StepAll(s, et, uids[1..])
  }

  /** Every uid within `depth` steps of the roots. */
  function Reach(s: Snapshot, et: EdgeType, roots: seq<string>, depth: nat): seq<string>
    decreases depth
  {
    if depth == 0 then roots else roots + Reach(s, et, StepAll(s, et, roots), depth - 1)
  }

  function Vectors(nodes: seq<Node>): (vs: seq<(string, Option<string>)>)
    ensures |vs| == |nodes|
  {
    seq(|nodes|, i requires 0 <= i < |nodes| => (nodes[i].uid, nodes[i].vec))
  }

  predicate Starts(root: RootTest, s: Snapshot, dg: Dgraph, n: Node) {
    match root
    case ByVector(v, k) => n.uid in dg.nearest(v, k, Vectors(s.nodes))
    case ByRadius(g) => dg.tests.near(g, Lookup(n.data, GEO_FIELD))
    case ByFilter(f) => Holds(f, dg.tests, n)
    case ByReach(ids, depth, et) => n.uid in Reach(s, et, ids, depth)
  }

  predicate Matches(p: Prepared, s: Snapshot, dg: Dgraph, n: Node) {
    Starts(p.root, s, dg, n) && Holds(p.filter, dg.tests, n)
  }

  function Matching(p: Prepared, s: Snapshot, dg: Dgraph, nodes: seq<Node>): seq<Node> {
    if nodes == [] then []
    else (if Matches(p, s, dg, nodes[0]) then [nodes[0]] else []) + Matching(p, s, dg, nodes[1..])
  }

  predicate Less(dg: Dgraph, field: string, desc: bool, a: Node, b: Node) {
    var va, vb := Lookup(a.data, field), Lookup(b.data, field);
    if desc then dg.before(vb, va) else dg.before(va, vb)
  }

  function Insert(dg: Dgraph, field: string, desc: bool, sorted: seq<Node>, n: Node): seq<Node> {
    if sorted == [] then [n]
    else if Less(dg, field, desc, n, sorted[0]) then [n] + sorted
    else [sorted[0]] + Insert(dg, field, desc, sorted[1..], n)
  }

  /** Stable order by one predicate. */
  function Sort(dg: Dgraph, field: string, desc: bool, nodes: seq<Node>): seq<Node> {
    if nodes == [] then []
    else Insert(dg, field, desc, Sort(dg, field, desc, nodes[..|nodes| - 1]), nodes[|nodes| - 1])
  }

  /** Matching nodes in the requested order, before pagination. */
  function Ordered(p: Prepared, page: Page, s: Snapshot, dg: Dgraph): seq<Node> {
    var found := Matching(p, s, dg, s.nodes);
    if page.order == "" then found else Sort(dg, page.order, page.desc, found)
  }

  function After(dg: Dgraph, cursor: string, nodes: seq<Node>): seq<Node> {
    if nodes == [] then []
    else (if dg.later(nodes[0].uid, cursor) then [nodes[0]] else []) + After(dg, cursor, nodes[1..])
  }

  function Skip(k: int, nodes: seq<Node>): seq<Node> {
    if k <= 0 then nodes else if k >= |nodes| then [] else nodes[k..]
  }

  /** A positive count keeps the first, a negative one the last, zero everything. */
  function Take(k: int, nodes: seq<Node>): seq<Node> {
    if k == 0 || k >= |nodes| || -k >= |nodes| then nodes
    else if k > 0 then nodes[..k] else nodes[|nodes| + k..]
  }

  function Paginate(dg: Dgraph, page: Page, nodes: seq<Node>): seq<Node> {
    var a := if page.after.Some? then After(dg, page.after.value, nodes) else nodes;
    var b := if page.offset.Some? then Skip(page.offset.value, a) else a;
    if page.first.Some? then Take(page.first.value, b) else b
  }

  /** What an `e` selection shows of a neighbour. */
  datatype EdgeView = EdgeView(uid: string, own: Option<string>, sgi: Option<string>, bits: Bits)

  /** A returned node: the authz fields always, other predicates only when selected. */
  datatype ResultNode = ResultNode(node: Node, edges: seq<EdgeView>)

  function EdgesOf(s: Snapshot, uids: seq<string>): seq<EdgeView> {
    if uids == [] then []
    else
      (match Find(s.nodes, uids[0])
       case None => []
       case Some(n) => [EdgeView(n.uid, n.own, n.sgi, n.bits)])
      + EdgesOf(s, uids[1..])
  }

  /** `renderFields`: a selected name counts only if it is allowed, and only as written. */
  function Shown(e: Env, fields: seq<string>, n: Node): map<string, string> {
    map f | f in n.data && f in fields && f in e.fields :: n.data[f]
  }

  const EDGE_FIELD := "e"

  function ViewNode(e: Env, fields: seq<string>, s: Snapshot, n: Node): ResultNode {
    ResultNode(n.(data := Shown(e, fields, n), vec := None, out := []),
               if EDGE_FIELD in fields && EDGE_FIELD in e.fields then EdgesOf(s, n.out) else [])
  }

  function ViewAll(e: Env, fields: seq<string>, s: Snapshot, nodes: seq<Node>): (rs: seq<ResultNode>)
    ensures |rs| == |nodes|
  {
    seq(|nodes|, i requires 0 <= i < |nodes| => ViewNode(e, fields, s, nodes[i]))
  }

  const PRIVATE_FIELD := "p"

  /** `RedactPrivateDataFor` on a returned node; its edges carry no private data. */
  function Redact(caller: Caller, r: ResultNode): ResultNode {
    if caller.IsAdmin() || r.node.own == Some(caller.uid) then r
    else r.(node := r.node.(data := r.node.data - {PRIVATE_FIELD}))
  }

  /** The response layer: drop what the caller may not read, redact the rest. */
  function Respond(caller: Caller, grants: set<string>, rs: seq<ResultNode>): seq<ResultNode> {
    if rs == [] then []
    else
      (if MayRead(caller, grants, rs[0].node) then [Redact(caller, rs[0])] else [])
      + Respond(caller, grants, rs[1..])
  }

  function RespondOne(caller: Caller, grants: set<string>, r: ResultNode): seq<ResultNode> {
    if MayRead(caller, grants, r.node) then [Redact(caller, r)] else []
  }

  lemma RespondCons(caller: Caller, grants: set<string>, r: ResultNode, rs: seq<ResultNode>)
    ensures Respond(caller, grants, [r] + rs) == RespondOne(caller, grants, r) + Respond(caller, grants, rs)
  {
    assert ([r] + rs)[1..] == rs;
  }

  datatype Outcome = Rejected(reason: Refusal) | Failed | Nodes(nodes: seq<ResultNode>)

  /** The page Dgraph returns. */
  function Answer(e: Env, fields: seq<string>, p: Prepared, page: Page, s: Snapshot, dg: Dgraph): seq<ResultNode> {
    ViewAll(e, fields, s, Paginate(dg, page, Ordered(p, page, s, dg)))
  }

  /** What the caller gets back. */
  function Run(e: Env, q: Request, et: EdgeType, caller: Caller, allowedSgis: seq<string>, grants: set<string>,
               s: Snapshot, dg: Dgraph): Outcome
  {
    match Build(e, q, et, Some(caller), allowedSgis)
    case Refused(reason) => Rejected(reason)
    case Accepted(b) =>
      match (Prepare(b), ReadPage(PageArgs(b.page)))
      case (Some(p), Some(page)) => Nodes(Respond(caller, grants, Answer(e, b.fields, p, page, s, dg)))
      case _ => Failed
  }

  lemma RunAnswers(e: Env, q: Request, et: EdgeType, caller: Caller, allowedSgis: seq<string>, grants: set<string>,
                   s: Snapshot, dg: Dgraph, b: Built, p: Prepared, page: Page)
    requires Build(e, q, et, Some(caller), allowedSgis) == Accepted(b) && Prepare(b) == Some(p)
    requires ReadPage(PageArgs(b.page)) == Some(page)
    ensures Run(e, q, et, caller, allowedSgis, grants, s, dg)
         == Nodes(Respond(caller, grants, Answer(e, b.fields, p, page, s, dg)))
  {
  }
}
