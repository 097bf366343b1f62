/**
 * The parameter list of a query, `query q($ids: string, $vvab: string)`: what it declares, what the
 * body uses and what the variable map binds (services/db.go).
 */
module QueryParams {
  import opened Graph
  import opened Text
  import opened Declarations
  import opened FilterCompiler
  import opened Dql
  import opened FilterMeaning
  import opened FilterTheorems
  import opened Query
  import opened ReadFilter
  import opened Uid

  /** Prefix of the variables that carry clause values. */
  const VV := "$vv"

  predicate IsValueVar(key: string) { VV <= key }

  /** The `$vv` keys, in the order the map is iterated. */
  function ValueVars(order: seq<string>): (vs: seq<string>)
    ensures forall v :: v in vs <==> v in order && IsValueVar(v)
  {
    if order == [] then []
    else
      var last := order[|order| - 1];
      ValueVars(order[..|order| - 1]) + if IsValueVar(last) then [last] else []
  }

  const STRING_DECL := ": string"

  function Declare(names: seq<string>): (ds: seq<string>)
    ensures |ds| == |names|
    ensures forall i :: 0 <= i < |names| ==> ds[i] == names[i] + STRING_DECL
  {
    seq(|names|, i requires 0 <= i < |names| => names[i] + STRING_DECL)
  }

  /** Joining with the type between and appending it once more declares each name. */
  lemma {:induction false} JoinDeclares(names: seq<string>)
    requires names != []
    ensures Join(names, STRING_DECL + ", ") + STRING_DECL == Join(Declare(names), ", ")
  {
    if |names| > 1 {
      JoinDeclares(names[1..]);
      assert Declare(names)[1..] == Declare(names[1..]);
      var more := Join(names[1..], STRING_DECL + ", ");
      assert names[0] + (STRING_DECL + ", ") + more + STRING_DECL
           == names[0] + STRING_DECL + ", " + (more + STRING_DECL);
    }
  }

  /** `renderQueryVarsString`, for a map iterated in the given order. */
  method RenderQueryVarsString(order: seq<string>) returns (text: string)
    ensures text == Join(Declare(ValueVars(order)), ", ")
  {
    var tmpV := [];
    for k := 0 to |order|
      invariant tmpV == ValueVars(order[..k])
    {
      assert order[..k + 1][..k] == order[..k];
      if IsValueVar(order[k]) { tmpV := tmpV + [order[k]]; }
    }
    assert order[..|order|] == order;
    text := "";
    if |tmpV| > 0 {
      JoinDeclares(tmpV);
      if |tmpV| > 1 { text := Join(tmpV, ": string, "); } else { text := tmpV[0]; }
      assert ": string, " == STRING_DECL + ", ";
      text := text + ": string";
    }
  }

  /** `renderQueryParams`: the fixed declarations, then one per bound value; an empty half leaves no comma. */
  method RenderQueryParams(fixed: seq<string>, order: seq<string>) returns (text: string)
    ensures text == Join(fixed + Declare(ValueVars(order)), ", ")
  {
    var parts := fixed;
    var v := RenderQueryVarsString(order);
    var decls := Declare(ValueVars(order));
    JoinEmpty(decls, ", ");
    if v != "" {
      parts := parts + [v];
      if fixed != [] {
        JoinAppend(fixed, [v], ", ");
        JoinAppend(fixed, decls, ", ");
      } else {
        assert fixed + [v] == [v] && fixed + decls == decls;
      }
    } else {
      assert fixed + decls == fixed;
    }
    text := Join(parts, ", ");
  }

  // ------------------------------------------------------ declared = bound = used

  const STRING_KIND := "string"
  const INT_KIND := "int"

  /** `fixedParams`: what the chosen root needs besides the clause values. */
  function FixedDecls(root: Root): seq<Decl> {
    match root
    case Reached(_, _, _) => [Decl(IDS, STRING_KIND), Decl(RDEPTH, INT_KIND)]
    case Listed(_) => [Decl(IDS, STRING_KIND)]
    case _ => []
  }

  function StringDecls(names: seq<string>): (ds: seq<Decl>)
    ensures |ds| == |names|
    ensures forall i :: 0 <= i < |names| ==> ds[i] == Decl(names[i], STRING_KIND)
  {
    seq(|names|, i requires 0 <= i < |names| => Decl(names[i], STRING_KIND))
  }

  function NamesOf(ds: seq<Decl>): set<string> { set d | d in ds :: d.name }

  predicate DistinctNames(ds: seq<Decl>) {
    forall i, j :: 0 <= i < j < |ds| ==> ds[i].name != ds[j].name
  }

  /** The variables a filter's text uses. */
  function Uses(f: Filter): set<string> {
    match f
    case Group(_, parts) => UsesAll(parts)
    case Match(_, _, v) => {v}
    case _ => {}
  }

  function UsesAll(parts: seq<Filter>): set<string> {
    if parts == [] then {} else Uses(parts[0]) + UsesAll(parts[1..])
  }

  function BoundNames(bs: seq<(string, string)>): set<string> { set b | b in bs :: b.0 }

  lemma {:induction false} UsesAllHas(parts: seq<Filter>, v: string)
    ensures v in UsesAll(parts) <==> exists i :: 0 <= i < |parts| && v in Uses(parts[i])
  {
    if parts != [] {
      UsesAllHas(parts[1..], v);
      if v in UsesAll(parts[1..]) {
        var i :| 0 <= i < |parts[1..]| && v in Uses(parts[1..][i]);
        assert v in Uses(parts[i + 1]);
      }
      if exists i :: 0 <= i < |parts| && v in Uses(parts[i]) {
        var i :| 0 <= i < |parts| && v in Uses(parts[i]);
        if i > 0 { assert v in Uses(parts[1..][i - 1]); }
      }
    }
  }

  lemma {:induction false} FlatNames(bss: seq<seq<(string, string)>>, v: string)
    ensures v in BoundNames(Flatten(bss)) <==> exists i :: 0 <= i < |bss| && v in BoundNames(bss[i])
  {
    if bss != [] {
      var front, last := bss[..|bss| - 1], bss[|bss| - 1];
      FlatNames(front, v);
      assert BoundNames(Flatten(bss)) == BoundNames(Flatten(front)) + BoundNames(last);
      if v in BoundNames(Flatten(front)) {
        var i :| 0 <= i < |front| && v in BoundNames(front[i]);
        assert v in BoundNames(bss[i]);
      }
      if exists i :: 0 <= i < |bss| && v in BoundNames(bss[i]) {
        var i :| 0 <= i < |bss| && v in BoundNames(bss[i]);
        if i < |front| { assert v in BoundNames(front[i]); }
      }
    }
  }

  /** A compiled filter uses exactly the variables it binds. */
  lemma {:induction false} UsesWhatItBinds(p: Plan, v: string)
    ensures v in Uses(Tree(p)) <==> v in BoundNames(Bindings(p))
  {
    match p
    case Combine(joiner, items) =>
      var bss, trees := BindingsAll(items), Trees(items);
      forall i | 0 <= i < |items| ensures v in Uses(trees[i]) <==> v in BoundNames(bss[i]) {
        UsesWhatItBinds(items[i], v);
      }
      UsesAllHas(trees, v);
      FlatNames(bss, v);
      assert v in Uses(Grouped(joiner, trees)) <==> exists i :: 0 <= i < |trees| && v in Uses(trees[i]) by {
        if |trees| == 1 { assert v in Uses(trees[0]) ==> 0 <= 0 < |trees|; }
      }
    case Near(_) =>
    case Test(_, _, variable, text) => assert Bindings(p) == [(variable, text)];
  }

  lemma {:induction false} BindKeys(m: map<string, string>, bs: seq<(string, string)>)
    ensures Bind(m, bs).Keys == m.Keys + BoundNames(bs)
  {
    if bs != [] {
      var front := bs[..|bs| - 1];
      BindKeys(m, front);
      assert BoundNames(bs) == BoundNames(front) + {bs[|bs| - 1].0};
    }
  }

  /** `order` runs once through the keys of the map. */
  ghost predicate Enumerates(order: seq<string>, vars: map<string, string>) {
    && (forall k :: k in vars <==> k in order)
    && (forall i, j :: 0 <= i < j < |order| ==> order[i] != order[j])
  }

  lemma {:induction false} ValueVarsDistinct(order: seq<string>)
    requires forall i, j :: 0 <= i < j < |order| ==> order[i] != order[j]
    ensures forall i, j :: 0 <= i < j < |ValueVars(order)| ==> ValueVars(order)[i] != ValueVars(order)[j]
  {
    if order != [] { ValueVarsDistinct(order[..|order| - 1]); }
  }

  lemma BindingNamesAreValueVars(e: Env, c: Clause)
    requires EnvOk(e)
    ensures forall v :: v in BoundNames(Bindings(Lower(e, c))) ==> IsValueVar(v) && PlainName(v)
  {
    BindingsAreLeaves(e, c);
    var leaves := Leaves(c);
    forall i | 0 <= i < |leaves|
      ensures IsValueVar(LeafBindings(e, leaves)[i].0) && PlainName(LeafBindings(e, leaves)[i].0)
    {
      ValueVarPlain(e, LeafValue(e, leaves[i]));
    }
  }

  lemma ValueVarPlain(e: Env, val: string)
    requires IsWordTail(e.digest)
    ensures IsValueVar(VarName(e, val)) && PlainName(VarName(e, val))
  {
    var v := VarName(e, val);
    assert v[..3] == VV;
    forall i | 0 <= i < |v| ensures WordChar(v[i]) {
      if i >= 3 { assert v[i] == e.digest(val)[i - 3]; }
    }
  }

  lemma FixedAreNotValues()
    ensures IDS != RDEPTH && !IsValueVar(IDS) && !IsValueVar(RDEPTH)
  {
    assert !IsValueVar(IDS) by { assert IDS[1] != VV[1]; }
    assert !IsValueVar(RDEPTH) by { assert RDEPTH[1] != VV[1]; }
  }

  lemma FixedArePlain(root: Root)
    ensures forall d :: d in FixedDecls(root) ==> PlainName(d.name) && PlainName(d.kind) && !IsValueVar(d.name)
  {
    FixedAreNotValues();
    FixedWordsArePlain();
  }

  lemma FixedWordsArePlain()
    ensures PlainName(IDS) && PlainName(RDEPTH) && PlainName(STRING_KIND) && PlainName(INT_KIND)
  {
  }

  lemma FixedNamesAre(root: Root)
    ensures NamesOf(FixedDecls(root)) == FixedVars(root).Keys
  {
    match root
    case Reached(_, _, _) => NamesOfTwo(Decl(IDS, STRING_KIND), Decl(RDEPTH, INT_KIND));
    case Listed(_) => NamesOfOne(Decl(IDS, STRING_KIND));
    case _ =>
  }

  /** The fixed declarations are the fixed variables. */
  lemma FixedNames(root: Root)
    ensures NamesOf(FixedDecls(root)) == FixedVars(root).Keys
    ensures DistinctNames(FixedDecls(root))
    ensures forall d :: d in FixedDecls(root) ==> PlainName(d.name) && PlainName(d.kind) && !IsValueVar(d.name)
  {
    FixedAreNotValues();
    FixedNamesAre(root);
    FixedArePlain(root);
  }

  /** The depth of a traversal is a number, everything else is text. */
  lemma KindsAsUsed(root: Root, order: seq<string>, d: Decl)
    requires d in Declared(root, order)
    ensures d.kind == if d.name == "$rdepth" then "int" else "string"
  {
    if d in StringDecls(ValueVars(order)) {
      assert IsValueVar(d.name);
      assert d.name[1] == VV[1] != "$rdepth"[1];
    } else {
      assert "$ids" != "$rdepth";
    }
  }

  lemma NamesOfOne(d: Decl)
    ensures NamesOf([d]) == {d.name}
  {
    assert d in [d];
  }

  lemma NamesOfTwo(d: Decl, e: Decl)
    ensures NamesOf([d, e]) == {d.name, e.name}
  {
    assert d in [d, e] && e in [d, e];
  }

  /** The declarations of a query whose map is iterated in this order. */
  function Declared(root: Root, order: seq<string>): seq<Decl> { FixedDecls(root) + StringDecls(ValueVars(order)) }

  /** The value variables of the map are exactly those the clauses bound. */
  lemma ValuesAreBindings(root: Root, bs: seq<(string, string)>, order: seq<string>)
    requires forall v :: v in BoundNames(bs) ==> IsValueVar(v)
    requires Enumerates(order, Bind(FixedVars(root), bs))
    ensures forall v :: v in ValueVars(order) <==> v in BoundNames(bs)
  {
    BindKeys(FixedVars(root), bs);
    FixedNames(root);
    forall v | v in FixedVars(root) ensures !IsValueVar(v) {
      var d :| d in FixedDecls(root) && d.name == v;
    }
  }

  lemma StringDeclNames(values: seq<string>, names: set<string>)
    requires forall v :: v in values <==> v in names
    ensures NamesOf(StringDecls(values)) == names
  {
    forall v | v in names ensures v in NamesOf(StringDecls(values)) {
      var i :| 0 <= i < |values| && values[i] == v;
      assert StringDecls(values)[i] in StringDecls(values);
    }
    forall v | v in NamesOf(StringDecls(values)) ensures v in names {
      var d :| d in StringDecls(values) && d.name == v;
    }
  }

  lemma NamesAppend(a: seq<Decl>, b: seq<Decl>)
    requires DistinctNames(a) && DistinctNames(b) && NamesOf(a) !! NamesOf(b)
    ensures NamesOf(a + b) == NamesOf(a) + NamesOf(b) && DistinctNames(a + b)
  {
    forall i, j | 0 <= i < j < |a + b| ensures (a + b)[i].name != (a + b)[j].name {
      if i < |a| <= j {
        assert a[i].name in NamesOf(a) && b[j - |a|].name in NamesOf(b);
      }
    }
  }

  /**
   * For every query shape and every iteration order of the variable map, the rendered list reads back
   * as one declaration for each bound variable, each exactly once, and with no dangling comma.
   */
  lemma DeclaredAreBound(root: Root, bs: seq<(string, string)>, order: seq<string>)
    requires forall v :: v in BoundNames(bs) ==> IsValueVar(v) && PlainName(v)
    requires Enumerates(order, Bind(FixedVars(root), bs))
    ensures ReadParams(Join(ShowAll(FixedDecls(root)) + Declare(ValueVars(order)), ", ")) == Some(Declared(root, order))
    ensures DistinctNames(Declared(root, order))
    ensures NamesOf(Declared(root, order)) == Bind(FixedVars(root), bs).Keys
  {
    var values := ValueVars(order);
    BindKeys(FixedVars(root), bs);
    FixedNames(root);
    ValueVarsDistinct(order);
    ValuesAreBindings(root, bs, order);
    StringDeclNames(values, BoundNames(bs));
    assert NamesOf(FixedDecls(root)) !! NamesOf(StringDecls(values)) by {
      forall d | d in FixedDecls(root) ensures d.name !in BoundNames(bs) { }
    }
    NamesAppend(FixedDecls(root), StringDecls(values));
    DeclaredReads(root, order);
  }

  lemma DeclareIsShow(names: seq<string>)
    ensures Declare(names) == ShowAll(StringDecls(names))
  {
    forall i | 0 <= i < |names| ensures Declare(names)[i] == ShowAll(StringDecls(names))[i] {
      DeclOne(names[i]);
    }
  }

  lemma DeclOne(name: string)
    ensures name + STRING_DECL == Show(Decl(name, STRING_KIND))
  {
    assert STRING_DECL == ": " + STRING_KIND;
    assert name + (": " + STRING_KIND) == name + ": " + STRING_KIND;
  }

  lemma FixedThenValues(fixed: seq<Decl>, names: seq<string>)
    requires forall d :: d in fixed + StringDecls(names) ==> PlainName(d.name) && PlainName(d.kind)
    ensures ReadParams(Join(ShowAll(fixed) + Declare(names), ", ")) == Some(fixed + StringDecls(names))
  {
    ReadRendered(fixed + StringDecls(names));
    DeclareIsShow(names);
    assert ShowAll(fixed + StringDecls(names)) == ShowAll(fixed) + Declare(names);
  }

  lemma DeclaredReads(root: Root, order: seq<string>)
    requires forall v :: v in ValueVars(order) ==> PlainName(v)
    ensures ReadParams(Join(ShowAll(FixedDecls(root)) + Declare(ValueVars(order)), ", ")) == Some(Declared(root, order))
  {
    DeclaredArePlain(root, order);
    FixedThenValues(FixedDecls(root), ValueVars(order));
  }

  lemma DeclaredArePlain(root: Root, order: seq<string>)
    requires forall v :: v in ValueVars(order) ==> PlainName(v)
    ensures forall d :: d in Declared(root, order) ==> PlainName(d.name) && PlainName(d.kind)
  {
    FixedNames(root);
    PlainBoth(FixedDecls(root), StringDecls(ValueVars(order)));
  }

  predicate PlainDecl(d: Decl) { PlainName(d.name) && PlainName(d.kind) }

  lemma PlainBoth(a: seq<Decl>, b: seq<Decl>)
    requires (forall d :: d in a ==> PlainDecl(d)) && forall d :: d in b ==> PlainDecl(d)
    ensures forall d :: d in a + b ==> PlainDecl(d)
  {
  }

  /** The variables a compiled clause's text uses once parsed. */
  lemma CompiledUses(e: Env, c: Clause)
    requires EnvOk(e) && GeoClausesValid(c) && LeafFieldsAllowed(e, c)
    ensures ParseFilter(Print(Lower(e, c))).Some?
    ensures Uses(ParseFilter(Print(Lower(e, c))).value) == BoundNames(Bindings(Lower(e, c)))
  {
    CompiledTextParses(e, c);
    forall v ensures v in Uses(Tree(Lower(e, c))) <==> v in BoundNames(Bindings(Lower(e, c))) {
      UsesWhatItBinds(Lower(e, c), v);
    }
  }

  lemma UsesNothing(uid: string, safe: seq<string>)
    ensures Uses(AuthzTree(uid, safe)) == {}
  {
    if safe != [] {
      var inner := [SgiIn(safe), CanRead];
      forall v ensures v !in UsesAll(inner) { UsesAllHas(inner, v); }
      assert Uses(Group(And, inner)) == {};
      var outer := [OwnedBy(uid), Group(And, inner)];
      forall v ensures v !in UsesAll(outer) { UsesAllHas(outer, v); }
    }
  }

  lemma UsesOfPair(a: Filter, b: Filter)
    ensures Uses(Group(And, [a, b])) == Uses(a) + Uses(b)
  {
    assert [a, b][1..] == [b] && [b][1..] == [];
    assert UsesAll([b]) == Uses(b) + UsesAll([]);
  }

  /** The read restriction adds no variable: the final filter uses what the user's clause bound. */
  lemma FinalFilterUses(e: Env, q: Request, et: EdgeType, caller: Caller, allowedSgis: seq<string>)
    requires EnvOk(e) && GeoClausesValid(EffectiveFilter(e, q)) && LeafFieldsAllowed(e, EffectiveFilter(e, q))
    ensures ParseFilter(FilterText(e, q, et, Some(caller), allowedSgis)).Some?
    ensures Uses(ParseFilter(FilterText(e, q, et, Some(caller), allowedSgis)).value)
         == BoundNames(Bindings(Lower(e, EffectiveFilter(e, q))))
  {
    var c := EffectiveFilter(e, q);
    CompiledUses(e, c);
    if Restricted(et, Some(caller)) {
      var uid, safe := SanitiseUID(caller.uid), SafeSgis(allowedSgis);
      CompiledTextParses(e, c);
      SanitisedIsWord(caller.uid);
      PrintableLower(e, c);
      RestrictionNeverCaptured(Lower(e, c), uid, safe);
      UsesNothing(uid, safe);
      UsesOfPair(Tree(Lower(e, c)), AuthzTree(uid, safe));
    }
  }

  lemma RequestNamesPlain(e: Env, q: Request)
    requires EnvOk(e)
    ensures forall v :: v in BoundNames(RequestBindings(e, q)) ==> IsValueVar(v) && PlainName(v)
    ensures BoundNames(RequestBindings(e, q))
         == BoundNames(RootBindings(e, q)) + BoundNames(Bindings(Lower(e, EffectiveFilter(e, q))))
  {
    BindingNamesAreValueVars(e, EffectiveFilter(e, q));
    if q.rootQuery.Some? { BindingNamesAreValueVars(e, q.rootQuery.value); }
  }

  /**
   * Well-formed parameters: for every accepted request and every iteration order of its variable map,
   * the parameter list declares exactly the variables the map binds, each once.
   */
  lemma ParametersWellFormed(e: Env, q: Request, et: EdgeType, uad: Option<Caller>, allowedSgis: seq<string>,
                             b: Built, order: seq<string>)
    requires EnvOk(e) && Build(e, q, et, uad, allowedSgis) == Accepted(b)
    requires Enumerates(order, b.vars)
    ensures ReadParams(Join(ShowAll(FixedDecls(b.root)) + Declare(ValueVars(order)), ", "))
         == Some(Declared(b.root, order))
    ensures DistinctNames(Declared(b.root, order)) && NamesOf(Declared(b.root, order)) == b.vars.Keys
  {
    RequestNamesPlain(e, q);
    DeclaredAreBound(b.root, RequestBindings(e, q), order);
  }

  /** The variables of the filter that a text parses to. */
  function UsedIn(text: string): set<string> {
    match ParseFilter(text)
    case None => {}
    case Some(f) => Uses(f)
  }

  /** And those are exactly the variables the body uses: the root's fixed ones, the root query's and the filter's. */
  lemma ParametersUsed(e: Env, q: Request, et: EdgeType, caller: Caller, allowedSgis: seq<string>, b: Built)
    requires EnvOk(e) && Build(e, q, et, Some(caller), allowedSgis) == Accepted(b)
    requires LeafFieldsAllowed(e, EffectiveFilter(e, q))
    requires b.root.Found? ==> LeafFieldsAllowed(e, q.rootQuery.value)
    ensures ParseFilter(b.filter).Some? && (b.root.Found? ==> ParseFilter(b.root.text).Some?)
    ensures b.vars.Keys
         == FixedVars(b.root).Keys + UsedIn(b.filter) + (if b.root.Found? then UsedIn(b.root.text) else {})
  {
    AcceptedShape(e, q, et, caller, allowedSgis, b);
    BindKeys(FixedVars(b.root), RequestBindings(e, q));
    RequestNamesPlain(e, q);
    FinalFilterUses(e, q, et, caller, allowedSgis);
    if b.root.Found? { CompiledUses(e, q.rootQuery.value); }
  }

  lemma AcceptedShape(e: Env, q: Request, et: EdgeType, caller: Caller, allowedSgis: seq<string>, b: Built)
    requires Build(e, q, et, Some(caller), allowedSgis) == Accepted(b)
    ensures GeoClausesValid(EffectiveFilter(e, q)) && b.filter == FilterText(e, q, et, Some(caller), allowedSgis)
    ensures b.vars == Bind(FixedVars(b.root), RequestBindings(e, q))
    ensures b.root.Found? ==> q.rootQuery.Some? && GeoClausesValid(q.rootQuery.value)
    ensures b.root.Found? ==> b.root.text == Print(Lower(e, q.rootQuery.value))
    ensures RootBindings(e, q) == if b.root.Found? then Bindings(Lower(e, q.rootQuery.value)) else []
  {
    PartsOfBuilt(e, q, et, Some(caller), allowedSgis, b);
    RootChoice(e, q, et, b.root);
    CheckedClausesAreValid(e, q, Some(caller));
  }
}
