/**
 * A query as Dgraph reads it, against the request it was built from: the page, where the query starts, what
 * it asks of each node, and the filter that stands in for a missing one (services/db.go).
 */
module QueryReadBack {
  import opened Graph
  import opened Text
  import opened Uid
  import opened Declarations
  import opened FilterCompiler
  import opened Dql
  import opened FilterMeaning
  import opened FilterTheorems
  import opened ReadFilter
  import opened Query
  import opened QueryParts
  import opened QueryRun
  import QueryParams
  import QuerySent
  import Selection

  // ------------------------------------------------------------------- the page

  lemma WordIsPlainName(s: string)
    requires IsWord(s)
    ensures PlainName(s)
  {
  }

  lemma CanonicalIsPlainName(uid: string)
    requires Canonical(uid)
    ensures PlainName(uid)
  {
    forall i | 0 <= i < |uid| ensures uid[i] != ',' && uid[i] != ':' {
      if i < 2 { assert uid[i] == uid[..2][i]; }
    }
  }

  lemma PageIsGood(e: Env, q: Request)
    requires EnvOk(e)
    ensures GoodPage(PageOf(e, q))
  {
    var p := PageOf(e, q);
    if p.order != "" { WordIsPlainName(p.order); }
    if p.after.Some? {
      SanitiseIsCanonical(q.after.value);
      CanonicalIsPlainName(p.after.value);
    }
  }

  lemma PageIsRead(e: Env, q: Request)
    requires EnvOk(e)
    ensures ReadPage(PageArgs(PageOf(e, q))) == Some(PageOf(e, q))
  {
    PageIsGood(e, q);
    PageReadsBack(PageOf(e, q));
  }

  /**
   * The page arguments that are sent, read back: the requested order if it names an allowed field, its
   * direction, the numbers as they were given, and the sanitised cursor.
   */
  lemma PageAsRequested(e: Env, q: Request) returns (p: Page)
    requires EnvOk(e)
    ensures ReadPage(PageArgs(PageOf(e, q))) == Some(p)
    ensures p.order == if q.orderBy.Some? && ToLower(q.orderBy.value) in e.fields then ToLower(q.orderBy.value) else ""
    ensures p.desc <==> p.order != "" && q.orderDesc
    ensures p.first == q.first && p.offset == q.offset
    ensures p.after == if q.after.Some? && q.after.value != "" then Some(SanitiseUID(q.after.value)) else None
  {
    p := PageOf(e, q);
    PageIsRead(e, q);
  }

  // ------------------------------------------------------------------- where the query starts

  /** Variables that no clause binds keep their values. */
  lemma {:induction false} BindOther(m: map<string, string>, bs: seq<(string, string)>, name: string)
    requires forall i :: 0 <= i < |bs| ==> bs[i].0 != name
    ensures name in Bind(m, bs) <==> name in m
    ensures name in m ==> Bind(m, bs)[name] == m[name]
  {
    if bs != [] { BindOther(m, bs[..|bs| - 1], name); }
  }

  lemma FixedStay(e: Env, q: Request, m: map<string, string>, name: string)
    requires EnvOk(e) && !QueryParams.IsValueVar(name)
    ensures name in Bind(m, RequestBindings(e, q)) <==> name in m
    ensures name in m ==> Bind(m, RequestBindings(e, q))[name] == m[name]
  {
    var bs := RequestBindings(e, q);
    QueryParams.RequestNamesPlain(e, q);
    forall i | 0 <= i < |bs| ensures bs[i].0 != name {
      assert bs[i].0 in QueryParams.BoundNames(bs);
    }
    BindOther(m, bs, name);
  }

  lemma FixedNames()
    ensures !QueryParams.IsValueVar("$ids") && !QueryParams.IsValueVar("$rdepth")
  {
    assert "$ids"[1] != QueryParams.VV[1] && "$rdepth"[1] != QueryParams.VV[1];
  }

  lemma {:induction false} ListedIdsAreGood(rootIds: seq<string>)
    ensures forall id :: id in DropZero(SanitiseAll(rootIds)) ==> id != "" && ',' !in id
  {
    var all := SanitiseAll(rootIds);
    forall id | id in DropZero(all) ensures id != "" && ',' !in id {
      DropZeroExact(all, [], id);
      var i :| 0 <= i < |all| && all[i] == id;
      SanitiseIsCanonical(rootIds[i]);
      CanonicalIsPlainName(id);
    }
  }

  /** What the variables of a traversal read as. */
  lemma TraversalReads(e: Env, q: Request, root: Root, ids: seq<string>, vars: map<string, string>)
    requires EnvOk(e) && ids == DropZero(SanitiseAll(q.rootIds)) && vars == Bind(FixedVars(root), RequestBindings(e, q))
    requires (root.Reached? || root.Listed?) && root.ids == ids
    ensures BoundIds(vars) == Some(ids)
    ensures root.Reached? ==> BoundDepth(vars) == Some(root.depth)
  {
    var fixed := FixedVars(root);
    FixedNames();
    FixedStay(e, q, fixed, "$ids");
    FixedStay(e, q, fixed, "$rdepth");
    ListedIdsAreGood(q.rootIds);
    IdsReadBack(ids);
    assert fixed["$ids"] == "[" + Join(ids, ",") + "]";
    if root.Reached? { CountReadsBack(root.depth); }
  }

  lemma RadiusReads(geo: Geo)
    requires DecimalText(geo.lon) && DecimalText(geo.lat) && DecimalText(geo.distance)
    ensures ParseFilter(Print(Near(geo))) == Some(Within(geo))
  {
    ParsePrinted(Near(geo));
  }

  lemma VectorHasNoQuote(vector: string)
    requires VectorText(vector)
    ensures '"' !in vector
  {
  }

  /** The root query's filter, with the variables of the whole request, means the root query. */
  lemma RootQueryMeans(e: Env, q: Request, c: Clause, m: map<string, string>, dg: Tests, n: Node)
    requires EnvOk(e) && GeoClausesValid(c) && LeafFieldsAllowed(e, c)
    requires RootBindings(e, q) == Bindings(Lower(e, c)) && Consistent(RequestBindings(e, q))
    ensures var vars := Bind(m, RequestBindings(e, q)); var parsed := ParseFilter(Print(Lower(e, c)));
      parsed.Some? && (Holds(Resolve(parsed.value, vars), dg, n) <==> Selects(e, c, dg, n))
  {
    CompilePreservesMeaning(e, c, m, Bindings(Lower(e, EffectiveFilter(e, q))), dg, n);
  }

  /**
   * Where a request asks to start: at the nodes nearest a vector, ten of them unless it says how many and a
   * thousand at most; within a radius; at what its root query selects; or at its uids and what hangs within
   * the depth it gives, twenty steps at most.
   */
  predicate StartsAt(e: Env, q: Request, et: EdgeType, s: Snapshot, dg: Dgraph, n: Node) {
    if q.similar.GoodVector? then
      var k := if q.similar.topK == 0 then 10 else if q.similar.topK > 1000 then 1000 else q.similar.topK;
      n.uid in dg.nearest(q.similar.vector, k, Vectors(s.nodes))
    else if q.geo.GoodGeo? then dg.tests.near(q.geo.geo, Lookup(n.data, "g"))
    else if q.rootQuery.Some? then Selects(e, q.rootQuery.value, dg.tests, n)
    else
      var ids := DropZero(SanitiseAll(q.rootIds));
      if q.depth == 0 then n.uid in ids else n.uid in Reach(s, et, ids, if q.depth > 20 then 20 else q.depth)
  }

  predicate StartsBy(root: Option<RootTest>, s: Snapshot, dg: Dgraph, n: Node) {
    root.Some? && Starts(root.value, s, dg, n)
  }

  /** A query that starts from uids. */
  lemma TraversalPrepared(e: Env, q: Request, et: EdgeType, b: Built, ids: seq<string>)
    requires EnvOk(e) && RootOf(e, q, et) == Accepted(b.root) && (b.root.Reached? || b.root.Listed?)
    requires b.vars == Bind(FixedVars(b.root), RequestBindings(e, q)) && ids == DropZero(SanitiseAll(q.rootIds))
    ensures PrepareRoot(b)
         == Some(if b.root.Reached? then ByReach(ids, b.root.depth, et) else ByReach(ids, 0, NodeNode))
  {
    RootIds(e, q, et, b.root, ids);
    TraversalReads(e, q, b.root, ids, b.vars);
    EdgeReadsBack(et);
  }

  lemma RootIds(e: Env, q: Request, et: EdgeType, root: Root, ids: seq<string>)
    requires RootOf(e, q, et) == Accepted(root) && (root.Reached? || root.Listed?)
    requires ids == DropZero(SanitiseAll(q.rootIds))
    ensures root == if q.depth > 0 then Reached(ids, if q.depth > 20 then 20 else q.depth, et) else Listed(ids)
    ensures q.similar == NoVector && q.geo == NoGeo && q.rootQuery.None?
  {
  }

  lemma TraversalStarts(e: Env, q: Request, et: EdgeType, b: Built, s: Snapshot, dg: Dgraph, n: Node)
    requires EnvOk(e) && RootOf(e, q, et) == Accepted(b.root) && (b.root.Reached? || b.root.Listed?)
    requires b.vars == Bind(FixedVars(b.root), RequestBindings(e, q))
    ensures PrepareRoot(b).Some? && (StartsBy(PrepareRoot(b), s, dg, n) <==> StartsAt(e, q, et, s, dg, n))
  {
    var ids := DropZero(SanitiseAll(q.rootIds));
    RootIds(e, q, et, b.root, ids);
    TraversalPrepared(e, q, et, b, ids);
    ReachStarts(e, q, et, s, dg, n, ids, PrepareRoot(b).value);
  }

  lemma ReachStarts(e: Env, q: Request, et: EdgeType, s: Snapshot, dg: Dgraph, n: Node, ids: seq<string>,
                    root: RootTest)
    requires q.similar == NoVector && q.geo == NoGeo && q.rootQuery.None? && ids == DropZero(SanitiseAll(q.rootIds))
    requires root == if q.depth > 0 then ByReach(ids, if q.depth > 20 then 20 else q.depth, et)
                     else ByReach(ids, 0, NodeNode)
    ensures Starts(root, s, dg, n) <==> StartsAt(e, q, et, s, dg, n)
  {
    ReachNothing(s, NodeNode, ids);
  }

  lemma ReachNothing(s: Snapshot, et: EdgeType, ids: seq<string>)
    ensures Reach(s, et, ids, 0) == ids
  {
  }

  lemma VectorStarts(e: Env, q: Request, et: EdgeType, b: Built, s: Snapshot, dg: Dgraph, n: Node)
    requires RootOf(e, q, et) == Accepted(b.root) && b.root.Nearest?
    ensures PrepareRoot(b).Some? && (StartsBy(PrepareRoot(b), s, dg, n) <==> StartsAt(e, q, et, s, dg, n))
  {
    VectorHasNoQuote(q.similar.vector);
    SimilarReadsBack(b.root.topK, b.root.vector);
  }

  lemma RadiusStarts(e: Env, q: Request, et: EdgeType, b: Built, s: Snapshot, dg: Dgraph, n: Node)
    requires RootOf(e, q, et) == Accepted(b.root) && b.root.InRadius?
    ensures PrepareRoot(b).Some? && (StartsBy(PrepareRoot(b), s, dg, n) <==> StartsAt(e, q, et, s, dg, n))
  {
    RadiusReads(q.geo.geo);
  }

  lemma FoundPrepared(b: Built)
    requires b.root.Found? && ParseFilter(b.root.text).Some?
    ensures PrepareRoot(b) == Some(ByFilter(Resolve(ParseFilter(b.root.text).value, b.vars)))
  {
  }

  lemma FoundChoice(e: Env, q: Request, et: EdgeType, root: Root)
    requires RootOf(e, q, et) == Accepted(root) && root.Found?
    ensures q.similar == NoVector && q.geo == NoGeo
  {
  }

  lemma FoundStarts(e: Env, q: Request, et: EdgeType, b: Built, s: Snapshot, dg: Dgraph, n: Node)
    requires EnvOk(e) && RootOf(e, q, et) == Accepted(b.root) && b.root.Found?
    requires q.rootQuery.Some? ==> GeoClausesValid(q.rootQuery.value) && LeafFieldsAllowed(e, q.rootQuery.value)
    requires Consistent(RequestBindings(e, q)) && b.vars == Bind(FixedVars(b.root), RequestBindings(e, q))
    ensures PrepareRoot(b).Some? && (StartsBy(PrepareRoot(b), s, dg, n) <==> StartsAt(e, q, et, s, dg, n))
  {
    RootChoice(e, q, et, b.root);
    FoundChoice(e, q, et, b.root);
    RootQueryMeans(e, q, q.rootQuery.value, FixedVars(b.root), dg.tests, n);
    FoundPrepared(b);
  }

  /** Every accepted request starts where it asks to, read off the text and the variables that are sent. */
  lemma StartsAsRequested(e: Env, q: Request, et: EdgeType, uad: Option<Caller>, allowedSgis: seq<string>, b: Built,
                          s: Snapshot, dg: Dgraph, n: Node)
    requires EnvOk(e) && Build(e, q, et, uad, allowedSgis) == Accepted(b) && Consistent(RequestBindings(e, q))
    requires b.root.Found? && q.rootQuery.Some? ==> LeafFieldsAllowed(e, q.rootQuery.value)
    ensures PrepareRoot(b).Some? && (StartsBy(PrepareRoot(b), s, dg, n) <==> StartsAt(e, q, et, s, dg, n))
  {
    PartsOfBuilt(e, q, et, uad, allowedSgis, b);
    RootChoice(e, q, et, b.root);
    CheckedClausesAreValid(e, q, uad);
    match b.root
    case Nearest(_, _) => VectorStarts(e, q, et, b, s, dg, n);
    case InRadius(_) => RadiusStarts(e, q, et, b, s, dg, n);
    case Found(_) => FoundStarts(e, q, et, b, s, dg, n);
    case Reached(_, _, _) => TraversalStarts(e, q, et, b, s, dg, n);
    case Listed(_) => TraversalStarts(e, q, et, b, s, dg, n);
  }

  // ------------------------------------------------------------------- filter and selection

  /** A request without a filter asks for every node changed since the epoch, with one for what it selects. */
  lemma FilterAsRequested(e: Env, q: Request, dg: Tests, n: Node)
    requires Deployed(e)
    ensures q.filters.Some? ==> EffectiveFilter(e, q) == q.filters.value
    ensures q.filters.None? ==> LeafFieldsAllowed(e, EffectiveFilter(e, q))
    ensures q.filters.None? ==>
      (Selects(e, EffectiveFilter(e, q), dg, n)
       <==> dg.compare("gt", "1970-01-01 00:00:00 +0000 UTC", Lookup(n.data, "m")))
  {
    if q.filters.None? { DefaultSelects(e, dg, n); }
  }

  lemma DefaultSelects(e: Env, dg: Tests, n: Node)
    requires Deployed(e)
    ensures LeafFieldsAllowed(e, DefaultFilter(e))
    ensures Selects(e, DefaultFilter(e), dg, n)
       <==> dg.compare("gt", "1970-01-01 00:00:00 +0000 UTC", Lookup(n.data, "m"))
  {
    AlreadyLower("m");
    AlreadyLower("gt");
    LeafAlone(e, DefaultFilter(e), dg, n);
    GtOnM(e, e.epoch);
  }

  lemma LeafAlone(e: Env, c: Clause, dg: Tests, n: Node)
    requires BareLeaf(c)
    ensures LeafFieldsAllowed(e, c) <==> ToLower(c.field) in e.fields
    ensures Selects(e, c, dg, n)
       <==> Holds(Asked(e, ToLower(c.op), ToLower(c.field), Written(e, c.val, ToLower(c.field))), dg, n)
  {
  }

  lemma GtOnM(e: Env, val: string)
    requires Deployed(e) && val == e.epoch
    ensures "m" in e.fields && Written(e, val, "m") == "1970-01-01 00:00:00 +0000 UTC"
    ensures Asked(e, "gt", "m", val) == Match("gt", "m", val)
  {
  }

  lemma AllowedFieldsArePlain(e: Env)
    requires EnvOk(e)
    ensures Selection.PlainFields(e)
  {
    forall f | f in e.fields ensures Selection.PlainField(f) { WordHasNoBrace(f); }
  }

  lemma WordHasNoBrace(f: string)
    requires IsWord(f)
    ensures Selection.PlainField(f)
  {
  }

  /** The selection of a block, read back. */
  function AskedOfNodes(e: Env, b: Built): seq<(int, string)> {
    Selection.ReadSelection(Selection.NODE_FIELDS + Join(Selection.FieldTexts(e, b.fields), " "))
  }

  /**
   * What an accepted request asks of the nodes it finds and of their neighbours: of the nodes all that decides
   * who may read them and the allowed fields it selects, and of a neighbour, if edges are among them, what decides
   * who may read that.
   */
  lemma SelectionAsRequested(e: Env, q: Request, et: EdgeType, uad: Option<Caller>, allowedSgis: seq<string>, b: Built,
                             depth: int, name: string)
    requires EnvOk(e) && Build(e, q, et, uad, allowedSgis) == Accepted(b)
    ensures QuerySent.FILTER_CLOSE == QuerySent.FILTER_END + Selection.NODE_FIELDS
    ensures (depth, name) in AskedOfNodes(e, b)
       <==> || (depth, name) in Selection.NODE_NAMES
            || (depth == 0 && name in q.select && name in e.fields)
            || ("e" in q.select && "e" in e.fields && (depth, name) in Selection.NEIGHBOUR)
  {
    PartsOfBuilt(e, q, et, uad, allowedSgis, b);
    AllowedFieldsArePlain(e);
    Selection.SelectionExactly(e, b.fields, depth, name);
  }
}
