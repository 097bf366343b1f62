/** The compiler's promise, stated on the clause trees a client sends. */
module FilterTheorems {
  import opened Graph
  import opened Text
  import opened Regex
  import opened FilterCompiler
  import opened Dql
  import opened FilterLexing
  import opened FilterMeaning

  ghost predicate IsWordTail(digest: string -> string) {
    forall s, i :: 0 <= i < |digest(s)| ==> WordChar(digest(s)[i])
  }

  /** What the allow-lists and the hash give: words of the query language, none of them a reserved call. */
  ghost predicate EnvOk(e: Env) {
    && (forall op :: op in e.ops + {"has", "regexp"} ==> IsWord(op) && op != NEAR && op != UID_IN)
    && (forall f :: f in e.fields ==> IsWord(f))
    && IsWordTail(e.digest)
  }

  /** The environment of the running server. */
  ghost predicate Deployed(e: Env) {
    e.ops == ALLOWED_OPS && e.fields == ALLOWED_FIELDS && e.epoch == EPOCH_UTC && IsWordTail(e.digest)
  }

  lemma DeployedIsOk(e: Env)
    requires Deployed(e)
    ensures EnvOk(e)
  {
    forall op | op in e.ops + {"has", "regexp"} ensures IsWord(op) && op != NEAR && op != UID_IN { OpIsWord(op); }
    forall f | f in e.fields ensures IsWord(f) { FieldIsWord(f); }
  }

  lemma OpIsWord(op: string)
    requires op in ALLOWED_OPS || op == "regexp"
    ensures IsWord(op) && op != NEAR && op != UID_IN
  {
  }

  lemma FieldIsWord(f: string)
    requires f in ALLOWED_FIELDS
    ensures IsWord(f)
  {
  }

  /** Every leaf that counts names an allowed field. */
  predicate LeafFieldsAllowed(e: Env, c: Clause) {
    if c.and.Present? && c.and.items != [] then
      forall i :: 0 <= i < |c.and.items| ==> LeafFieldsAllowed(e, c.and.items[i])
    else if !c.and.Present? && c.or.Present? && c.or.items != [] then
      forall i :: 0 <= i < |c.or.items| ==> LeafFieldsAllowed(e, c.or.items[i])
    else c.geo == NoGeo ==> ToLower(c.field) in e.fields
  }

  /**
   * The meaning of a clause tree, read off the clauses themselves: an `and` that is there hides the `or`, the
   * radius and the test, and so on.
   */
  predicate Selects(e: Env, c: Clause, dg: Tests, n: Node) {
    if c.and.Present? && c.and.items != [] then
      forall i :: 0 <= i < |c.and.items| ==> Selects(e, c.and.items[i], dg, n)
    else if !c.and.Present? && c.or.Present? && c.or.items != [] then
      exists i :: 0 <= i < |c.or.items| && Selects(e, c.or.items[i], dg, n)
    else
      match c.geo
      case GoodGeo(geo) => dg.near(geo, Lookup(n.data, "g"))
      case BadGeo => false
      case NoGeo => LeafSelects(e, c, dg, n)
  }

  /** A test by its own field, operator and value. */
  predicate LeafSelects(e: Env, c: Clause, dg: Tests, n: Node) {
    Holds(Asked(e, ToLower(c.op), ToLower(c.field), Written(e, c.val, ToLower(c.field))), dg, n)
  }

  /** What a value stands for: none is "0", and "0" as a time is the epoch. */
  function Written(e: Env, val: string, field: string): string {
    if val != "" && val != "0" then val else if field == "m" then e.epoch else "0"
  }

  /**
   * The call a test makes. A comparison compares with the value as it stands; anything else searches for it,
   * by a pattern from three bytes on.
   */
  function Asked(e: Env, op: string, field: string, val: string): Filter {
    if op in e.ops && op != "has" then Match(op, field, val) else Search(field, TrimSpace(val))
  }

  function Search(field: string, text: string): Filter {
    if ByteLen(text) >= 3 then Match("regexp", field, CreateRegex(text)) else Match("has", field, text)
  }

  /** The test the compiler emits is the one asked for. */
  lemma LeafIsAsked(e: Env, c: Clause)
    requires ToLower(c.field) in e.fields
    ensures Match(LeafOp(e, c), RenderField(e, c.field), LeafText(e, c))
         == Asked(e, ToLower(c.op), ToLower(c.field), Written(e, c.val, ToLower(c.field)))
  {
    var val := LeafValue(e, c);
    LeafValueIsWritten(e, c);
    OpAndText(e, c, RenderOp(e, c.op), val, TrimSpace(val));
  }

  lemma LeafValueIsWritten(e: Env, c: Clause)
    requires ToLower(c.field) in e.fields
    ensures LeafValue(e, c) == Written(e, c.val, ToLower(c.field))
  {
  }

  lemma OpAndText(e: Env, c: Clause, op: string, val: string, trimmed: string)
    requires op == RenderOp(e, c.op) && val == LeafValue(e, c) && trimmed == TrimSpace(val)
    ensures op != "has" ==> LeafOp(e, c) == op && LeafText(e, c) == val
    ensures op == "has" && ByteLen(trimmed) >= 3 ==> LeafOp(e, c) == "regexp" && LeafText(e, c) == CreateRegex(trimmed)
    ensures op == "has" && ByteLen(trimmed) < 3 ==> LeafOp(e, c) == "has" && LeafText(e, c) == trimmed
  {
  }

  /** The leaves the compiler visits, in order. */
  function Leaves(c: Clause): seq<Clause> {
    match View(c)
    case Branch(_, items) => Flatten(seq(|items|, i requires 0 <= i < |items| => Leaves(items[i])))
    case Radius => []
    case Leaf => [c]
  }

  function LeafBindings(e: Env, leaves: seq<Clause>): (bs: seq<(string, string)>)
    ensures |bs| == |leaves|
  {
    seq(|leaves|, i requires 0 <= i < |leaves| => (VarName(e, LeafValue(e, leaves[i])), LeafText(e, leaves[i])))
  }

  lemma PrintableLeaf(e: Env, c: Clause)
    requires EnvOk(e) && View(c) == Leaf
    ensures Printable(Lower(e, c))
  {
    VariableIsWord(e, LeafValue(e, c));
    LeafOpIsWord(e, c);
  }

  lemma LeafFieldAllowed(e: Env, c: Clause)
    requires EnvOk(e)
    ensures RenderField(e, c.field) != "" <==> ToLower(c.field) in e.fields
  {
  }

  lemma VariableIsWord(e: Env, val: string)
    requires IsWordTail(e.digest)
    ensures IsWord(VarName(e, val)) && "$vv" <= VarName(e, val)
  {
    var v := VarName(e, val);
    assert v[..3] == "$vv";
    assert forall i :: 3 <= i < |v| ==> v[i] == e.digest(val)[i - 3];
  }

  lemma LeafOpIsWord(e: Env, c: Clause)
    requires EnvOk(e)
    ensures IsWord(LeafOp(e, c)) && LeafOp(e, c) != NEAR && LeafOp(e, c) != UID_IN
  {
    assert LeafOp(e, c) in e.ops + {"has", "regexp"};
  }

  lemma {:induction false} PrintableLower(e: Env, c: Clause)
    requires EnvOk(e) && GeoClausesValid(c)
    ensures Printable(Lower(e, c))
    ensures FieldsAllowed(Lower(e, c)) <==> LeafFieldsAllowed(e, c)
  {
    match View(c)
    case Branch(joiner, items) =>
      var plans := Lower(e, c).items;
      forall i | 0 <= i < |items|
        ensures Printable(plans[i]) && (FieldsAllowed(plans[i]) <==> LeafFieldsAllowed(e, items[i]))
      {
        PrintableLower(e, items[i]);
      }
      assert FieldsAllowed(Lower(e, c)) <==> AllAllowed(plans);
    case Radius =>
    case Leaf =>
      PrintableLeaf(e, c);
      LeafFieldAllowed(e, c);
  }

  lemma LeafBindingsAppend(e: Env, front: seq<Clause>, last: seq<Clause>)
    ensures LeafBindings(e, front + last) == LeafBindings(e, front) + LeafBindings(e, last)
  {
  }

  lemma {:induction false} FlattenMapped(e: Env, lss: seq<seq<Clause>>, bss: seq<seq<(string, string)>>)
    requires |lss| == |bss|
    requires forall i :: 0 <= i < |lss| ==> bss[i] == LeafBindings(e, lss[i])
    ensures Flatten(bss) == LeafBindings(e, Flatten(lss))
  {
    if lss != [] {
      var n := |lss| - 1;
      FlattenMapped(e, lss[..n], bss[..n]);
      LeafBindingsAppend(e, Flatten(lss[..n]), lss[n]);
    }
  }

  lemma {:induction false} BindingsAreLeaves(e: Env, c: Clause)
    ensures Bindings(Lower(e, c)) == LeafBindings(e, Leaves(c))
  {
    match View(c)
    case Branch(joiner, items) =>
      var lss := seq(|items|, i requires 0 <= i < |items| => Leaves(items[i]));
      var bss := BindingsAll(Lower(e, c).items);
      forall i | 0 <= i < |items| ensures bss[i] == LeafBindings(e, lss[i]) {
        BindingsAreLeaves(e, items[i]);
      }
      FlattenMapped(e, lss, bss);
    case Radius =>
    case Leaf =>
  }

  /** Different values get different variables. */
  ghost predicate DigestSeparates(e: Env, leaves: seq<Clause>) {
    forall i, j :: 0 <= i < |leaves| && 0 <= j < |leaves| && LeafValue(e, leaves[i]) != LeafValue(e, leaves[j])
      ==> e.digest(LeafValue(e, leaves[i])) != e.digest(LeafValue(e, leaves[j]))
  }

  /** `has` would bind this value as it stands. */
  predicate KeptByHas(val: string) { TrimSpace(val) == val && !IsLong(val) }

  /** A `has` leaf and another leaf on the same value: they share one variable. */
  predicate Rivals(e: Env, a: Clause, b: Clause) {
    LeafValue(e, a) == LeafValue(e, b) && IsHas(e, a) && !IsHas(e, b)
  }

  /** No value is searched for by a `has` leaf, compared by another leaf, and rewritten for `has`. */
  predicate ClashFree(e: Env, leaves: seq<Clause>) {
    forall i, j :: 0 <= i < |leaves| && 0 <= j < |leaves| && Rivals(e, leaves[i], leaves[j])
      ==> KeptByHas(LeafValue(e, leaves[i]))
  }

  lemma {:induction false} EscapeGrows(s: string)
    ensures |Escape(s)| >= |s|
  {
    if s != "" { EscapeGrows(s[1..]); }
  }

  /** A value survives the `has` rewrite exactly when it is trimmed and at most two bytes long. */
  lemma HasTextFixed(val: string)
    ensures HasText(val) == val <==> KeptByHas(val)
  {
    if IsLong(val) {
      LongIsRewritten(val);
    }
  }

  lemma LongIsRewritten(val: string)
    requires IsLong(val)
    ensures HasText(val) != val
  {
    var t := TrimSpace(val);
    RegexOfTrimmed(val, t);
  }

  lemma RegexOfTrimmed(val: string, t: string)
    requires t == TrimSpace(val)
    ensures CreateRegex(t) != val
  {
    RegexIsTrimmed(t);
    RegexGrows(t);
    LongerThanTrimmed(val, t, CreateRegex(t));
  }

  /** A trimmed text longer than what trimming leaves of a value is not that value. */
  lemma LongerThanTrimmed(val: string, t: string, r: string)
    requires t == TrimSpace(val) && TrimSpace(r) == r && |r| > |t|
    ensures r != val
  {
  }

  lemma RegexIsTrimmed(t: string)
    ensures TrimSpace(CreateRegex(t)) == CreateRegex(t)
  {
    var r := CreateRegex(t);
    assert !IsSpace(r[0]) && !IsSpace(r[|r| - 1]);
    TrimSpaceFixed(r);
  }

  lemma RegexGrows(t: string)
    ensures |CreateRegex(t)| > |t|
  {
    EscapeGrows(t);
  }

  lemma SameTextExactly(e: Env, a: Clause, b: Clause)
    requires LeafValue(e, a) == LeafValue(e, b)
    ensures LeafText(e, a) == LeafText(e, b) <==> IsHas(e, a) == IsHas(e, b) || KeptByHas(LeafValue(e, a))
  {
    HasTextFixed(LeafValue(e, a));
  }

  lemma ConsistentIsClashFree(e: Env, leaves: seq<Clause>)
    requires DigestSeparates(e, leaves)
    ensures Consistent(LeafBindings(e, leaves)) <==> ClashFree(e, leaves)
  {
    var bs := LeafBindings(e, leaves);
    forall i, j | 0 <= i < |leaves| && 0 <= j < |leaves|
      ensures bs[i].0 == bs[j].0 <==> LeafValue(e, leaves[i]) == LeafValue(e, leaves[j])
      ensures LeafValue(e, leaves[i]) == LeafValue(e, leaves[j]) ==>
        (bs[i].1 == bs[j].1 <==> IsHas(e, leaves[i]) == IsHas(e, leaves[j]) || KeptByHas(LeafValue(e, leaves[i])))
    {
      VarNameSame(e, LeafValue(e, leaves[i]), LeafValue(e, leaves[j]));
      if LeafValue(e, leaves[i]) == LeafValue(e, leaves[j]) { SameTextExactly(e, leaves[i], leaves[j]); }
    }
  }

  lemma VarNameSame(e: Env, a: string, b: string)
    ensures VarName(e, a) == VarName(e, b) <==> e.digest(a) == e.digest(b)
  {
    assert VarName(e, a)[3..] == e.digest(a) && VarName(e, b)[3..] == e.digest(b);
  }

  lemma PlanOfLeaf(e: Env, c: Clause)
    requires View(c) == Leaf
    ensures Lower(e, c) == Test(LeafOp(e, c), RenderField(e, c.field), VarName(e, LeafValue(e, c)), LeafText(e, c))
  {
  }

  lemma PlainLeaf(e: Env, c: Clause)
    requires View(c) == Leaf && LeafFieldsAllowed(e, c)
    ensures Plain(Lower(e, c)) == Asked(e, ToLower(c.op), ToLower(c.field), Written(e, c.val, ToLower(c.field)))
  {
    PlanOfLeaf(e, c);
    LeafIsAsked(e, c);
  }

  lemma {:induction false} PlainMeans(e: Env, c: Clause, dg: Tests, n: Node)
    requires GeoClausesValid(c) && LeafFieldsAllowed(e, c)
    ensures Holds(Plain(Lower(e, c)), dg, n) <==> Selects(e, c, dg, n)
  {
    match View(c)
    case Branch(joiner, items) =>
      var plans := Lower(e, c).items;
      forall i | 0 <= i < |items| ensures Holds(Plains(plans)[i], dg, n) <==> Selects(e, items[i], dg, n) {
        PlainMeans(e, items[i], dg, n);
      }
      HoldsGrouped(joiner, Plains(plans), dg, n);
    case Radius =>
    case Leaf => PlainLeaf(e, c);
  }

  lemma HoldsGrouped(joiner: Joiner, parts: seq<Filter>, dg: Tests, n: Node)
    requires parts != []
    ensures Holds(Grouped(joiner, parts), dg, n) <==>
      if joiner.And? then forall i :: 0 <= i < |parts| ==> Holds(parts[i], dg, n)
      else exists i :: 0 <= i < |parts| && Holds(parts[i], dg, n)
  {
    if |parts| == 1 && joiner.Or? { assert Holds(parts[0], dg, n) ==> 0 <= 0 < |parts|; }
  }

  /** The text parses exactly when every emitted leaf names an allowed field. */
  lemma CompiledTextParses(e: Env, c: Clause)
    requires EnvOk(e) && GeoClausesValid(c)
    ensures ParseFilter(Print(Lower(e, c))) == if LeafFieldsAllowed(e, c) then Some(Tree(Lower(e, c))) else None
  {
    PrintableLower(e, c);
    ParsePrinted(Lower(e, c));
  }

  /**
   * Exactness: with the variables one request's leaves leave in the map, the parsed text is the clause
   * tree with its own texts if and only if the leaves do not clash.
   */
  lemma CompileExact(e: Env, c: Clause, vars: map<string, string>)
    requires EnvOk(e) && GeoClausesValid(c) && LeafFieldsAllowed(e, c) && DigestSeparates(e, Leaves(c))
    ensures ParseFilter(Print(Lower(e, c))).Some?
    ensures Resolve(ParseFilter(Print(Lower(e, c))).value, Bind(vars, Bindings(Lower(e, c)))) == Plain(Lower(e, c))
       <==> ClashFree(e, Leaves(c))
  {
    var p := Lower(e, c);
    CompiledTextParses(e, c);
    PrintableLower(e, c);
    BindAgrees(vars, Bindings(p));
    ResolveExact(p, Bind(vars, Bindings(p)));
    BindingsAreLeaves(e, c);
    ConsistentIsClashFree(e, Leaves(c));
  }

  /**
   * Compilation preserves meaning. `vars` may already hold the variables of a clause compiled before
   * and `later` those of one compiled after; what matters is that the request as a whole is consistent.
   */
  lemma CompilePreservesMeaning(e: Env, c: Clause, vars: map<string, string>, later: seq<(string, string)>, dg: Tests,
                                n: Node)
    requires EnvOk(e) && GeoClausesValid(c) && LeafFieldsAllowed(e, c)
    requires Consistent(Bindings(Lower(e, c)) + later)
    ensures ParseFilter(Print(Lower(e, c))).Some?
    ensures Holds(Resolve(ParseFilter(Print(Lower(e, c))).value, Bind(vars, Bindings(Lower(e, c)) + later)), dg, n)
       <==> Selects(e, c, dg, n)
  {
    var p := Lower(e, c);
    var all := Bindings(p) + later;
    CompiledTextParses(e, c);
    PrintableLower(e, c);
    BindAgrees(vars, all);
    AgreesAppend(Bind(vars, all), Bindings(p), later);
    ResolveExact(p, Bind(vars, all));
    PlainMeans(e, c, dg, n);
  }

  /**
   * Without the precondition the meaning is lost: for every pair of clashing leaves, `eq and has` ends
   * up comparing the first with what the second bound.
   */
  lemma ClashLosesMeaning(e: Env, eq: Clause, has: Clause, n: Node) returns (c: Clause, dg: Tests)
    requires EnvOk(e) && "regexp" !in e.ops
    requires BareLeaf(eq) && BareLeaf(has) && LeafFieldsAllowed(e, eq) && LeafFieldsAllowed(e, has)
    requires Rivals(e, has, eq) && !KeptByHas(LeafValue(e, has))
    ensures GeoClausesValid(c) && LeafFieldsAllowed(e, c) && Selects(e, c, dg, n)
    ensures ParseFilter(Print(Lower(e, c))) == Some(Tree(Lower(e, c)))
    ensures !Holds(Resolve(Tree(Lower(e, c)), Bind(map[], Bindings(Lower(e, c)))), dg, n)
  {
    var p1, p2 := Lower(e, eq), Lower(e, has);
    c, dg := AndOfTwo(eq, has, p1.op, p1.text);
    RivalPlans(e, eq, has);
    AndOfTwoSelects(e, c, eq, has, p1, p2, dg, n);
    CompiledTextParses(e, c);
    SecondWriteWins(p1, p2, dg, n);
  }

  lemma AndOfTwoSelects(e: Env, c: Clause, eq: Clause, has: Clause, p1: Plan, p2: Plan, dg: Tests, n: Node)
    requires c.and == Present([eq, has]) && BareLeaf(eq) && BareLeaf(has)
    requires LeafFieldsAllowed(e, eq) && LeafFieldsAllowed(e, has) && p1 == Lower(e, eq) && p2 == Lower(e, has)
    requires p1.Test? && p2.Test? && p1.op != p2.op
    requires forall op', text', val :: dg.compare(op', text', val) <==> op' != p1.op || text' == p1.text
    ensures LeafFieldsAllowed(e, c) && Selects(e, c, dg, n)
    ensures Lower(e, c) == Combine(And, [p1, p2])
  {
    TestHolds(p1, dg, n);
    TestHolds(p2, dg, n);
    PlainMeans(e, eq, dg, n);
    PlainMeans(e, has, dg, n);
    SelectsBoth(e, c, eq, has, dg, n);
    LowerBoth(e, c, eq, has);
  }

  lemma TestHolds(p: Plan, dg: Tests, n: Node)
    requires p.Test?
    ensures Holds(Plain(p), dg, n) <==> dg.compare(p.op, p.text, Lookup(n.data, p.field))
  {
  }

  lemma SelectsBoth(e: Env, c: Clause, a: Clause, b: Clause, dg: Tests, n: Node)
    requires c.and == Present([a, b]) && LeafFieldsAllowed(e, a) && LeafFieldsAllowed(e, b)
    requires Selects(e, a, dg, n) && Selects(e, b, dg, n)
    ensures LeafFieldsAllowed(e, c) && Selects(e, c, dg, n)
  {
  }

  lemma LowerBoth(e: Env, c: Clause, a: Clause, b: Clause)
    requires View(c) == Branch(And, [a, b])
    ensures Lower(e, c) == Combine(And, [Lower(e, a), Lower(e, b)])
  {
    assert Lower(e, c).items == [Lower(e, a), Lower(e, b)];
  }

  /** A test with no subclauses and no geo block. */
  predicate BareLeaf(c: Clause) { c.and.Nil? && c.or.Nil? && c.geo == NoGeo }

  lemma RivalTexts(e: Env, eq: Clause, has: Clause)
    requires Rivals(e, has, eq) && !KeptByHas(LeafValue(e, has))
    ensures LeafText(e, eq) != LeafText(e, has)
  {
    HasTextFixed(LeafValue(e, has));
  }

  lemma RivalOps(e: Env, eq: Clause, has: Clause)
    requires "regexp" !in e.ops && IsHas(e, has) && !IsHas(e, eq)
    ensures LeafOp(e, eq) != LeafOp(e, has)
  {
  }

  lemma RivalPlans(e: Env, eq: Clause, has: Clause)
    requires "regexp" !in e.ops && BareLeaf(eq) && BareLeaf(has)
    requires Rivals(e, has, eq) && !KeptByHas(LeafValue(e, has))
    ensures Lower(e, eq).Test? && Lower(e, has).Test? && Lower(e, eq).variable == Lower(e, has).variable
    ensures Lower(e, eq).text != Lower(e, has).text && Lower(e, eq).op != Lower(e, has).op
  {
    PlanOfLeaf(e, eq);
    PlanOfLeaf(e, has);
    RivalTexts(e, eq, has);
    RivalOps(e, eq, has);
  }

  /**
   * One test on the running server, from its text to what Dgraph is asked: each of the five comparisons, in
   * any case of letters, compares with the value as written, and everything else is a search.
   */
  lemma DeployedLeaf(e: Env, c: Clause, vars: map<string, string>)
    requires Deployed(e) && BareLeaf(c) && GeoClausesValid(c) && LeafFieldsAllowed(e, c)
    ensures ParseFilter(Print(Lower(e, c))).Some?
    ensures Resolve(ParseFilter(Print(Lower(e, c))).value, Bind(vars, Bindings(Lower(e, c))))
         == var op, field, val := ToLower(c.op), ToLower(c.field), Written(e, c.val, ToLower(c.field));
            if IsComparison(op) then Match(op, field, val) else Search(field, TrimSpace(val))
  {
    DeployedIsOk(e);
    CompiledTextParses(e, c);
    TestResolves(Lower(e, c), vars);
    PlainLeaf(e, c);
    DeployedOps(e, ToLower(c.op));
  }

  lemma TestResolves(p: Plan, vars: map<string, string>)
    requires p.Test?
    ensures Resolve(Tree(p), Bind(vars, Bindings(p))) == Plain(p)
  {
    BindOne(vars, p.variable, p.text);
  }

  predicate IsComparison(op: string) { op == "eq" || op == "gt" || op == "lt" || op == "ge" || op == "le" }

  lemma DeployedOps(e: Env, op: string)
    requires Deployed(e)
    ensures op in e.ops && op != "has" <==> IsComparison(op)
  {
  }

  lemma AndOfTwo(first: Clause, second: Clause, op: string, text: string) returns (c: Clause, dg: Tests)
    requires BareLeaf(first) && BareLeaf(second)
    ensures c.and == Present([first, second]) && GeoClausesValid(c)
    ensures forall op', text', val :: dg.compare(op', text', val) <==> op' != op || text' == text
  {
    c := Clause(Present([first, second]), Nil, "", "", "", NoGeo);
    dg := Tests((op', text', val) => op' != op || text' == text, (g, val) => true);
  }

  lemma SecondWriteWins(p1: Plan, p2: Plan, dg: Tests, n: Node)
    requires p1.Test? && p2.Test? && p1.variable == p2.variable && p1.text != p2.text
    requires forall op', text', val :: dg.compare(op', text', val) <==> op' != p1.op || text' == p1.text
    ensures !Holds(Resolve(Tree(Combine(And, [p1, p2])), Bind(map[], Bindings(Combine(And, [p1, p2])))), dg, n)
  {
    TwoBindings(p1, p2);
    var vars := map[p1.variable := p1.text][p2.variable := p2.text];
    var parts := Trees([p1, p2]);
    ResolveGrouped(And, parts, vars);
    assert !Holds(ResolveAll(parts, vars)[0], dg, n);
    HoldsGrouped(And, ResolveAll(parts, vars), dg, n);
  }

  lemma TwoBindings(p1: Plan, p2: Plan)
    requires p1.Test? && p2.Test?
    ensures Bind(map[], Bindings(Combine(And, [p1, p2]))) == map[p1.variable := p1.text][p2.variable := p2.text]
  {
    var b1, b2 := (p1.variable, p1.text), (p2.variable, p2.text);
    var bss := BindingsAll([p1, p2]);
    assert bss == [[b1], [b2]];
    assert bss[..1] == [[b1]] && [[b1]][..0] == [];
    assert Flatten([[b1]]) == [b1];
    assert Flatten(bss) == [b1, b2];
    assert [b1, b2][..1] == [b1];
    BindOne(map[], p1.variable, p1.text);
    assert Bind(map[], [b1, b2]) == Bind(map[], [b1])[p2.variable := p2.text];
  }

  lemma AlreadyLower(s: string)
    requires forall i :: 0 <= i < |s| ==> '0' <= s[i] <= '9' || 'a' <= s[i] <= 'z'
    ensures ToLower(s) == s
  {
  }

  lemma {:induction false} AsciiByteLen(s: string)
    requires forall i :: 0 <= i < |s| ==> s[i] as int < 0x80
    ensures ByteLen(s) == |s|
  {
    if s != "" { AsciiByteLen(s[1..]); }
  }

  lemma DeployedField(e: Env, f: string)
    requires Deployed(e) && (f == "s1" || f == "s2")
    ensures RenderField(e, f) == f
  {
    AlreadyLower(f);
  }

  lemma DeployedOp(e: Env, op: string)
    requires Deployed(e) && (op == "eq" || op == "has")
    ensures RenderOp(e, op) == op
  {
    AlreadyLower(op);
  }

  lemma FooIsLong()
    ensures IsLong("foo")
  {
    TrimSpaceFixed("foo");
    AsciiByteLen("foo");
  }

  /** Such a pair exists on the running server: `eq(s1, foo)` and `has(s2, foo)`. */
  lemma ClashingPair(e: Env) returns (eq: Clause, has: Clause)
    requires Deployed(e)
    ensures BareLeaf(eq) && BareLeaf(has) && LeafFieldsAllowed(e, eq) && LeafFieldsAllowed(e, has)
    ensures Rivals(e, has, eq) && !KeptByHas(LeafValue(e, has))
  {
    eq := Clause(Nil, Nil, "s1", "eq", "foo", NoGeo);
    has := Clause(Nil, Nil, "s2", "has", "foo", NoGeo);
    FooLeaf(e, eq);
    FooLeaf(e, has);
    FooIsLong();
  }

  /** Such a leaf compiles under its own names. */
  lemma FooLeaf(e: Env, c: Clause)
    requires Deployed(e) && BareLeaf(c) && c.val == "foo"
    requires (c.field == "s1" && c.op == "eq") || (c.field == "s2" && c.op == "has")
    ensures LeafFieldsAllowed(e, c) && LeafValue(e, c) == "foo" && (IsHas(e, c) <==> c.op == "has")
  {
    DeployedField(e, c.field);
    DeployedOp(e, c.op);
    assert View(c) == Leaf;
  }
}
