/**
 * A whole request: the root query and the filter share one variable map (services/db.go). Both parsed texts
 * mean what was asked exactly if no leaf of either clashes with another of either.
 */
module RequestExact {
  import opened Graph
  import opened FilterCompiler
  import opened Dql
  import opened FilterLexing
  import opened FilterMeaning
  import opened FilterTheorems
  import opened ReadFilter
  import opened Query

  /**
   * The leaves the compiler visits for a request: the root query's, if the request starts from it, then the
   * filter's.
   */
  function RequestLeaves(e: Env, q: Request): seq<Clause> {
    (if q.similar == NoVector && q.geo == NoGeo && q.rootQuery.Some? then Leaves(q.rootQuery.value) else [])
    + Leaves(EffectiveFilter(e, q))
  }

  lemma RequestBindingsAreLeaves(e: Env, q: Request)
    ensures RequestBindings(e, q) == LeafBindings(e, RequestLeaves(e, q))
  {
    BindingsAreLeaves(e, EffectiveFilter(e, q));
    if q.rootQuery.Some? {
      BindingsAreLeaves(e, q.rootQuery.value);
      LeafBindingsAppend(e, Leaves(q.rootQuery.value), Leaves(EffectiveFilter(e, q)));
    }
    LeafBindingsAppend(e, [], Leaves(EffectiveFilter(e, q)));
    assert LeafBindings(e, []) == [];
  }

  /** The bindings of a request are consistent exactly if its leaves do not clash. */
  lemma ConsistentExactly(e: Env, q: Request)
    requires DigestSeparates(e, RequestLeaves(e, q))
    ensures Consistent(RequestBindings(e, q)) <==> ClashFree(e, RequestLeaves(e, q))
  {
    RequestBindingsAreLeaves(e, q);
    ConsistentIsClashFree(e, RequestLeaves(e, q));
  }

  /** A plan's text, parsed and with its variables replaced, is the plan with its own texts. */
  predicate PlanMeansItself(p: Plan, vars: map<string, string>) {
    ParseFilter(Print(p)).Some? && Resolve(ParseFilter(Print(p)).value, vars) == Plain(p)
  }

  lemma PlanExactly(p: Plan, vars: map<string, string>)
    requires Printable(p) && FieldsAllowed(p) && Bound(vars, Bindings(p))
    ensures PlanMeansItself(p, vars) <==> Agrees(vars, Bindings(p))
  {
    ParsePrinted(p);
    ResolveExact(p, vars);
  }

  /** The same of a compiled clause. */
  predicate MeansItself(e: Env, c: Clause, vars: map<string, string>) { PlanMeansItself(Lower(e, c), vars) }

  lemma MeansItselfExactly(e: Env, c: Clause, vars: map<string, string>)
    requires EnvOk(e) && GeoClausesValid(c) && LeafFieldsAllowed(e, c) && Bound(vars, Bindings(Lower(e, c)))
    ensures MeansItself(e, c, vars) <==> Agrees(vars, Bindings(Lower(e, c)))
  {
    PrintableLower(e, c);
    PlanExactly(Lower(e, c), vars);
  }

  lemma BoundParts(vars: map<string, string>, a: seq<(string, string)>, b: seq<(string, string)>)
    requires Bound(vars, a + b)
    ensures Bound(vars, a) && Bound(vars, b)
  {
    forall i | 0 <= i < |a| ensures a[i].0 in vars { assert (a + b)[i] == a[i]; }
    forall i | 0 <= i < |b| ensures b[i].0 in vars { assert (a + b)[|a| + i] == b[i]; }
  }

  lemma BothAgree(e: Env, q: Request, vars: map<string, string>)
    ensures Agrees(vars, RequestBindings(e, q))
       <==> Agrees(vars, RootBindings(e, q)) && Agrees(vars, Bindings(Lower(e, EffectiveFilter(e, q))))
  {
    AgreesAppend(vars, RootBindings(e, q), Bindings(Lower(e, EffectiveFilter(e, q))));
  }

  /**
   * Exactness for whole requests: with the variables that an accepted request sends, the filter's text and
   * the root query's both mean the clauses they were compiled from if and only if no two leaves of the
   * request clash, be they in one clause tree or one in each.
   */
  lemma RequestMeansItself(e: Env, q: Request, et: EdgeType, uad: Option<Caller>, allowedSgis: seq<string>, b: Built)
    requires EnvOk(e) && Build(e, q, et, uad, allowedSgis) == Accepted(b)
    requires DigestSeparates(e, RequestLeaves(e, q))
    requires LeafFieldsAllowed(e, EffectiveFilter(e, q))
      && (b.root.Found? ==> q.rootQuery.Some? && LeafFieldsAllowed(e, q.rootQuery.value))
    ensures MeansItself(e, EffectiveFilter(e, q), b.vars)
            && (b.root.Found? ==> q.rootQuery.Some? && MeansItself(e, q.rootQuery.value, b.vars))
       <==> ClashFree(e, RequestLeaves(e, q))
  {
    PartsOfBuilt(e, q, et, uad, allowedSgis, b);
    RootChoice(e, q, et, b.root);
    CheckedClausesAreValid(e, q, uad);
    BindAgrees(FixedVars(b.root), RequestBindings(e, q));
    BoundParts(b.vars, RootBindings(e, q), Bindings(Lower(e, EffectiveFilter(e, q))));
    MeansItselfExactly(e, EffectiveFilter(e, q), b.vars);
    if b.root.Found? { MeansItselfExactly(e, q.rootQuery.value, b.vars); }
    BothAgree(e, q, b.vars);
    ConsistentExactly(e, q);
  }
}
