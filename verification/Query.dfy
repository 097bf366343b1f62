/**
 * A whole query: the checks made before any text is built, the query that is built, what an abstract
 * Dgraph answers, and what the response layer lets through (services/db.go, responses/cogged.go).
 */
module Query {
  import opened Graph
  import opened Text
  import opened Uid
  import opened FilterCompiler
  import opened ReadFilter

  /** A trimmed query vector; `BadVector` is a text that `rgxVectorLiteral` rejects. */
  datatype VectorBlock = NoVector | BadVector | GoodVector(vector: string, topK: nat)

  predicate VectorChar(c: char) {
    '0' <= c <= '9' || c == '+' || c == '-' || c == '.' || c == ',' || c == 'e' || c == 'E'
    || c == ' ' || c == '\t' || c == '\n' || c == '\r' || c as int == 0x0C
  }

  /** What `rgxVectorLiteral` accepts is made of: a bracketed list of numbers. */
  predicate VectorText(s: string) {
    |s| >= 2 && s[0] == '[' && s[|s| - 1] == ']' && forall i :: 0 < i < |s| - 1 ==> VectorChar(s[i])
  }

  predicate VectorValid(v: VectorBlock) { v.GoodVector? && VectorText(v.vector) }

  datatype Request = Request(rootIds: seq<string>, rootQuery: Option<Clause>, depth: nat, filters: Option<Clause>,
                             select: seq<string>, first: Option<int>, offset: Option<int>, after: Option<string>,
                             orderBy: Option<string>, orderDesc: bool, similar: VectorBlock, geo: GeoBlock)

  datatype Refusal =
    PrivateField | GeoField | SimilarAndGeo | InvalidGeoClause | InvalidVector | InvalidGeo | NoRootNodes

  datatype Result<T> = Accepted(value: T) | Refused(reason: Refusal)

  const MAX_QUERY_RECURSE_DEPTH := 20
  const DEFAULT_SIMILAR_TOPK := 10
  const MAX_SIMILAR_TOPK := 1000

  /** `strings.EqualFold` with a one-letter predicate name that only its two cases fold to. */
  predicate Names(field: string, letter: char)
    requires 'a' <= letter <= 'z'
  {
    |field| == 1 && (field[0] == letter || field[0] as int == letter as int - 32)
  }

  predicate ClauseNamesField(c: Clause, letter: char)
    requires 'a' <= letter <= 'z'
  {
    || Names(c.field, letter)
    || (c.and.Present? && exists i :: 0 <= i < |c.and.items| && ClauseNamesField(c.and.items[i], letter))
    || (c.or.Present? && exists i :: 0 <= i < |c.or.items| && ClauseNamesField(c.or.items[i], letter))
  }

  predicate QueryNamesField(q: Request, letter: char)
    requires 'a' <= letter <= 'z'
  {
    || (q.filters.Some? && ClauseNamesField(q.filters.value, letter))
    || (q.rootQuery.Some? && ClauseNamesField(q.rootQuery.value, letter))
    || (q.orderBy.Some? && Names(q.orderBy.value, letter))
  }

  function CheckQueryFields(q: Request, uad: Option<Caller>): Option<Refusal> {
    if uad.Some? && !uad.value.IsAdmin() && QueryNamesField(q, 'p') then Some(PrivateField)
    else if QueryNamesField(q, 'g') then Some(GeoField)
    else if q.similar != NoVector && q.geo != NoGeo then Some(SimilarAndGeo)
    else if q.filters.Some? && !GeoClausesValid(q.filters.value) then Some(InvalidGeoClause)
    else if q.rootQuery.Some? && !GeoClausesValid(q.rootQuery.value) then Some(InvalidGeoClause)
    else None
  }

  /** Where a query starts: the block's root function, or a traversal from given uids. */
  datatype Root = Nearest(vector: string, topK: nat)
                | InRadius(geo: Geo)
                | Found(text: string)
                | Reached(ids: seq<string>, depth: nat, edge: EdgeType)
                | Listed(ids: seq<string>)

  /** Pagination and order, as `renderPagination` passes them on. */
  datatype Page = Page(order: string, desc: bool, first: Option<int>, offset: Option<int>, after: Option<string>)

  datatype Built = Built(root: Root, filter: string, page: Page, fields: seq<string>, vars: map<string, string>)

  function DefaultFilter(e: Env): Clause { Clause(Nil, Nil, "m", "gt", e.epoch, NoGeo) }

  function EffectiveFilter(e: Env, q: Request): Clause {
    if q.filters.None? then DefaultFilter(e) else q.filters.value
  }

  function PageOf(e: Env, q: Request): Page {
    var order := if q.orderBy.Some? then RenderField(e, q.orderBy.value) else "";
    Page(order, order != "" && q.orderDesc, q.first, q.offset,
         if q.after.Some? && q.after.value != "" then Some(SanitiseUID(q.after.value)) else None)
  }

  function Clamp(k: nat): nat {
    if k == 0 then DEFAULT_SIMILAR_TOPK else if k > MAX_SIMILAR_TOPK then MAX_SIMILAR_TOPK else k
  }

  function CapDepth(depth: nat): nat { if depth > MAX_QUERY_RECURSE_DEPTH then MAX_QUERY_RECURSE_DEPTH else depth }

  function RootOf(e: Env, q: Request, et: EdgeType): Result<Root> {
    if q.similar != NoVector then
      if !VectorValid(q.similar) then Refused(InvalidVector)
      else Accepted(Nearest(q.similar.vector, Clamp(q.similar.topK)))
    else if q.geo != NoGeo then
      if !GeoValid(q.geo) then Refused(InvalidGeo) else Accepted(InRadius(q.geo.geo))
    else if q.rootQuery.Some? then Accepted(Found(Print(Lower(e, q.rootQuery.value))))
    else if q.rootIds == [] then Refused(NoRootNodes)
    else
      var ids := DropZero(SanitiseAll(q.rootIds));
      if q.depth > 0 then Accepted(Reached(ids, CapDepth(q.depth), et))
      else Accepted(Listed(ids))
  }

  const IDS := "$ids"
  const RDEPTH := "$rdepth"

  /** The variables a root binds before any clause is compiled. */
  function FixedVars(root: Root): map<string, string> {
    match root
    case Reached(ids, depth, _) => map[IDS := "[" + Join(ids, ",") + "]"][RDEPTH := Decimal(depth)]
    case Listed(ids) => map[IDS := "[" + Join(ids, ",") + "]"]
    case _ => map[]
  }

  /** Every variable the clauses of one request bind: the root query's first, then the filter's. */
  function RequestBindings(e: Env, q: Request): seq<(string, string)> {
    RootBindings(e, q) + Bindings(Lower(e, EffectiveFilter(e, q)))
  }

  function FilterText(e: Env, q: Request, et: EdgeType, uad: Option<Caller>, allowedSgis: seq<string>): string {
    var user := Print(Lower(e, EffectiveFilter(e, q)));
    if Restricted(et, uad) then
      RestrictedText(user, AuthzText(SanitiseUID(uad.value.uid), SafeSgis(allowedSgis)))
    else user
  }

  /** The query `QueryWithOptions` sends, up to the text template that holds its parts. */
  function Build(e: Env, q: Request, et: EdgeType, uad: Option<Caller>, allowedSgis: seq<string>): Result<Built> {
    if CheckQueryFields(q, uad).Some? then Refused(CheckQueryFields(q, uad).value)
    else
      match RootOf(e, q, et)
      case Refused(reason) => Refused(reason)
      case Accepted(root) =>
        Accepted(Built(root, FilterText(e, q, et, uad, allowedSgis), PageOf(e, q), q.select,
                       Bind(FixedVars(root), RequestBindings(e, q))))
  }

  /** Only a node query by somebody who is not sys is restricted to what they may read. */
  lemma UnrestrictedExactly(e: Env, q: Request, et: EdgeType, uad: Option<Caller>, allowedSgis: seq<string>)
    ensures FilterText(e, q, et, uad, allowedSgis) == Print(Lower(e, EffectiveFilter(e, q)))
       <==> et != NodeNode || uad.None? || uad.value.role == "sys"
  {
    if Restricted(et, uad) {
      var authz := AuthzText(SanitiseUID(uad.value.uid), SafeSgis(allowedSgis));
      RestrictedIsLonger(Print(Lower(e, EffectiveFilter(e, q))), authz);
    }
  }

  lemma RestrictedIsLonger(user: string, authz: string)
    ensures |RestrictedText(user, authz)| > |user|
  {
  }

  /** What is built, part by part. */
  lemma PartsOfBuilt(e: Env, q: Request, et: EdgeType, uad: Option<Caller>, allowedSgis: seq<string>, b: Built)
    requires Build(e, q, et, uad, allowedSgis) == Accepted(b)
    ensures CheckQueryFields(q, uad).None? && RootOf(e, q, et) == Accepted(b.root)
    ensures b.filter == FilterText(e, q, et, uad, allowedSgis) && b.page == PageOf(e, q) && b.fields == q.select
    ensures b.vars == Bind(FixedVars(b.root), RequestBindings(e, q))
  {
  }

  /** A root is a compiled clause exactly where the root query is what the request starts from. */
  lemma RootChoice(e: Env, q: Request, et: EdgeType, root: Root)
    requires RootOf(e, q, et) == Accepted(root)
    ensures root.Found? ==> q.rootQuery.Some? && root.text == Print(Lower(e, q.rootQuery.value))
    ensures RootBindings(e, q) == if root.Found? then Bindings(Lower(e, q.rootQuery.value)) else []
  {
  }

  lemma CheckedClausesAreValid(e: Env, q: Request, uad: Option<Caller>)
    requires CheckQueryFields(q, uad).None?
    ensures GeoClausesValid(EffectiveFilter(e, q))
    ensures q.rootQuery.Some? ==> GeoClausesValid(q.rootQuery.value)
  {
  }

  lemma AuthzTextNotEmpty(uid: string, safe: seq<string>)
    ensures AuthzText(uid, safe) != ""
  {
  }

  function RootBindings(e: Env, q: Request): seq<(string, string)> {
    if q.similar == NoVector && q.geo == NoGeo && q.rootQuery.Some? then Bindings(Lower(e, q.rootQuery.value)) else []
  }

  /** The first part of `QueryWithOptions`: the root function and the variables it needs. */
  method ChooseRoot(e: Env, q: Request, et: EdgeType, vars: QueryVars) returns (r: Result<Root>)
    requires q.rootQuery.Some? ==> GeoClausesValid(q.rootQuery.value)
    requires vars.vars == map[]
    modifies vars
    ensures r == RootOf(e, q, et)
    ensures r.Accepted? ==> vars.vars == Bind(FixedVars(r.value), RootBindings(e, q))
  {
    if q.similar != NoVector {
      if !VectorValid(q.similar) { return Refused(InvalidVector); }
      var topK := q.similar.topK;
      if topK == 0 { topK := DEFAULT_SIMILAR_TOPK; }
      if topK > MAX_SIMILAR_TOPK { topK := MAX_SIMILAR_TOPK; }
      return Accepted(Nearest(q.similar.vector, topK));
    } else if q.geo != NoGeo {
      if !GeoValid(q.geo) { return Refused(InvalidGeo); }
      return Accepted(InRadius(q.geo.geo));
    } else if q.rootQuery.Some? {
      var text := ConstructQueryStringAndAddVars(e, q.rootQuery.value, vars);
      return Accepted(Found(text));
    } else {
      r := RootFromIds(q, et, vars);
    }
  }

  /** A traversal from the request's uids. */
  method RootFromIds(q: Request, et: EdgeType, vars: QueryVars) returns (r: Result<Root>)
    requires vars.vars == map[]
    modifies vars
    ensures r.Refused? <==> q.rootIds == []
    ensures r.Refused? ==> r.reason == NoRootNodes
    ensures r.Accepted? ==> vars.vars == FixedVars(r.value)
    ensures r.Accepted? && q.depth == 0 ==> r.value == Listed(DropZero(SanitiseAll(q.rootIds)))
    ensures r.Accepted? && q.depth > 0 ==> r.value == Reached(DropZero(SanitiseAll(q.rootIds)), CapDepth(q.depth), et)
  {
    var depth := q.depth;
    if depth > MAX_QUERY_RECURSE_DEPTH { depth := MAX_QUERY_RECURSE_DEPTH; }
    if |q.rootIds| < 1 { return Refused(NoRootNodes); }
    var ids := SanitiseListOfUids(q.rootIds);
    vars.vars := vars.vars[IDS := "[" + Join(ids, ",") + "]"];
    if depth > 0 {
      vars.vars := vars.vars[RDEPTH := Decimal(depth)];
      return Accepted(Reached(ids, depth, et));
    }
    return Accepted(Listed(ids));
  }

  /** `QueryWithOptions`, up to the call of Dgraph. */
  method QueryWithOptions(e: Env, q: Request, et: EdgeType, uad: Option<Caller>, allowedSgis: seq<string>)
      returns (r: Result<Built>)
    ensures r == Build(e, q, et, uad, allowedSgis)
  {
    var denied := CheckQueryFields(q, uad);
    if denied.Some? { return Refused(denied.value); }
    var vars := new QueryVars();
    var root := ChooseRoot(e, q, et, vars);
    if root.Refused? { return Refused(root.reason); }
    BindAppend(FixedVars(root.value), RootBindings(e, q), Bindings(Lower(e, EffectiveFilter(e, q))));
    var text := ComposeFilter(e, q, et, uad, allowedSgis, vars);
    return Accepted(Built(root.value, text, PageOf(e, q), q.select, vars.vars));
  }

  method ComposeFilter(e: Env, q: Request, et: EdgeType, uad: Option<Caller>, allowedSgis: seq<string>, vars: QueryVars)
      returns (text: string)
    requires q.filters.Some? ==> GeoClausesValid(q.filters.value)
    modifies vars
    ensures text == FilterText(e, q, et, uad, allowedSgis)
    ensures vars.vars == Bind(old(vars.vars), Bindings(Lower(e, EffectiveFilter(e, q))))
  {
    text := ConstructQueryStringAndAddVars(e, EffectiveFilter(e, q), vars);
    var authz := RenderReadAuthzFilter(et, uad, allowedSgis);
    if Restricted(et, uad) { AuthzTextNotEmpty(SanitiseUID(uad.value.uid), SafeSgis(allowedSgis)); }
    if authz != "" { text := "(" + text + ") AND " + authz; }
  }
}
