/**
 * The filter compiler of services/db.go: a clause tree becomes DQL filter text plus a map of
 * query variables.
 */
module FilterCompiler {
  import opened Text
  import opened Regex

  /** A validated radius search; each part is the decimal literal `formatCoord` prints. */
  datatype Geo = Geo(lon: string, lat: string, distance: string)

  /** `BadGeo` is a block that `validateGeo` rejects. */
  datatype GeoBlock = NoGeo | BadGeo | GoodGeo(geo: Geo)

  /** A Go slice: `nil` and empty differ. */
  datatype Subclauses = Nil | Present(items: seq<Clause>)

  datatype Clause = Clause(and: Subclauses, or: Subclauses, field: string, op: string, val: string, geo: GeoBlock)

  /** What `formatCoord` prints: never an exponent. */
  predicate DecimalText(s: string) {
    s != "" && forall i :: 0 <= i < |s| ==> '0' <= s[i] <= '9' || s[i] == '.' || s[i] == '-'
  }

  predicate GeoValid(g: GeoBlock) {
    g.GoodGeo? && DecimalText(g.geo.lon) && DecimalText(g.geo.lat) && DecimalText(g.geo.distance)
  }

  /** `validateGeoClauses` finds nothing wrong; it also looks at subclauses the compiler ignores. */
  predicate GeoClausesValid(c: Clause) {
    && (c.geo != NoGeo ==> c.field == "" && c.op == "" && c.val == "" && GeoValid(c.geo))
    && (c.and.Present? ==> forall i :: 0 <= i < |c.and.items| ==> GeoClausesValid(c.and.items[i]))
    && (c.or.Present? ==> forall i :: 0 <= i < |c.or.items| ==> GeoClausesValid(c.or.items[i]))
  }

  /** Which part of a clause the compiler looks at: `and` before `or` before `geo` before the leaf. */
  datatype Shape = Branch(joiner: Joiner, items: seq<Clause>) | Radius | Leaf

  datatype Joiner = And | Or {
    function Text(): string { if And? then " and " else " or " }
  }

  function View(c: Clause): Shape {
    if c.and.Present? && c.and.items != [] then Branch(And, c.and.items)
    else if !c.and.Present? && c.or.Present? && c.or.items != [] then Branch(Or, c.or.items)
    else if c.geo != NoGeo then Radius
    else Leaf
  }

  /**
   * What compilation is relative to: the first twenty digits of `MD5SumHex`, the two allow-lists
   * and the text of the epoch, which depends on the server's time zone.
   */
  datatype Env = Env(digest: string -> string, ops: set<string>, fields: set<string>, epoch: string)

  const ALLOWED_OPS := {"has", "eq", "gt", "lt", "ge", "le"}

  const ALLOWED_FIELDS := {"e", "ty", "id", "p", "s1", "s2", "s3", "s4", "b", "n1", "n2", "c", "m", "t1", "t2", "g"}

  const EPOCH_UTC := "1970-01-01 00:00:00 +0000 UTC"

  function RenderOp(e: Env, op: string): string {
    if ToLower(op) in e.ops then ToLower(op) else "has"
  }

  function RenderField(e: Env, field: string): string {
    if ToLower(field) in e.fields then ToLower(field) else ""
  }

  /** The value a leaf's variable name is hashed from. */
  function LeafValue(e: Env, c: Clause): string {
    var val := if c.val == "" then "0" else c.val;
    if RenderField(e, c.field) == "m" && val == "0" then e.epoch else val
  }

  predicate IsHas(e: Env, c: Clause) { RenderOp(e, c.op) == "has" }

  /** A `has` search long enough to become a regular expression. */
  predicate IsLong(val: string) { ByteLen(TrimSpace(val)) > 2 }

  /** What a `has` leaf binds for a value. */
  function HasText(val: string): string {
    if IsLong(val) then CreateRegex(TrimSpace(val)) else TrimSpace(val)
  }

  function LeafText(e: Env, c: Clause): string {
    if IsHas(e, c) then HasText(LeafValue(e, c)) else LeafValue(e, c)
  }

  function LeafOp(e: Env, c: Clause): string {
    if IsHas(e, c) && IsLong(LeafValue(e, c)) then "regexp" else RenderOp(e, c.op)
  }

  function VarName(e: Env, val: string): string { "$vv" + e.digest(val) }

  /**
   * The clause tree with every choice made: what each test compares, the variable that carries its
   * operand and the text the test means that variable to hold.
   */
  datatype Plan = Combine(joiner: Joiner, items: seq<Plan>)
                | Near(geo: Geo)
                | Test(op: string, field: string, variable: string, text: string)

  function Lower(e: Env, c: Clause): Plan {
    match View(c)
    case Branch(joiner, items) => Combine(joiner, seq(|items|, i requires 0 <= i < |items| => Lower(e, items[i])))
    case Radius => Near(if c.geo.GoodGeo? then c.geo.geo else Geo("", "", ""))
    case Leaf => Test(LeafOp(e, c), RenderField(e, c.field), VarName(e, LeafValue(e, c)), LeafText(e, c))
  }

  /** The filter text of a plan. */
  function Print(p: Plan): string {
    match p
    case Combine(joiner, items) =>
      "(" + Join(PrintAll(items), joiner.Text()) + ")"
    case Near(g) => "near(g, [" + g.lon + ", " + g.lat + "], " + g.distance + ")"
    case Test(op, field, variable, _) => op + "(" + field + "," + variable + ")"
  }

  function PrintAll(items: seq<Plan>): (texts: seq<string>)
    ensures |texts| == |items|
    ensures forall i :: 0 <= i < |items| ==> texts[i] == Print(items[i])
  {
    seq(|items|, i requires 0 <= i < |items| => Print(items[i]))
  }

  function Flatten<T>(xss: seq<seq<T>>): seq<T> {
    if xss == [] then [] else Flatten(xss[..|xss| - 1]) + xss[|xss| - 1]
  }

  /** Variable and text of every test, in the order the compiler visits them. */
  function Bindings(p: Plan): seq<(string, string)> {
    match p
    case Combine(_, items) => Flatten(BindingsAll(items))
    case Near(_) => []
    case Test(_, _, variable, text) => [(variable, text)]
  }

  function BindingsAll(items: seq<Plan>): (all: seq<seq<(string, string)>>)
    ensures |all| == |items|
    ensures forall i :: 0 <= i < |items| ==> all[i] == Bindings(items[i])
  {
    seq(|items|, i requires 0 <= i < |items| => Bindings(items[i]))
  }

  /** Writing bindings into the map one after the other: a later write wins. */
  function Bind(m: map<string, string>, bindings: seq<(string, string)>): map<string, string> {
    if bindings == [] then m
    else
      var (variable, text) := bindings[|bindings| - 1];
      Bind(m, bindings[..|bindings| - 1])[variable := text]
  }

  lemma {:induction false} BindAppend(m: map<string, string>, a: seq<(string, string)>, b: seq<(string, string)>)
    ensures Bind(m, a + b) == Bind(Bind(m, a), b)
    decreases b
  {
    if b == [] {
      assert a + b == a;
    } else {
      BindAppend(m, a, b[..|b| - 1]);
      assert (a + b)[..|a + b| - 1] == a + b[..|b| - 1];
    }
  }

  /** The `*map[string]string` that compilation fills. */
  class QueryVars {
    var vars: map<string, string>

    constructor ()
      ensures vars == map[]
    {
      vars := map[];
    }
  }

  /** `constructQueryStringAndAddVars`: the loop over subclauses fills `queryvars` in place. */
  method ConstructQueryStringAndAddVars(e: Env, clause: Clause, queryvars: QueryVars) returns (text: string)
    requires GeoClausesValid(clause)
    modifies queryvars
    ensures Compiles(e, clause, text, old(queryvars.vars), queryvars.vars)
    decreases clause, 1
  {
    var subclauses := [];
    if clause.and.Present? { subclauses := clause.and.items; }
    else if clause.or.Present? { subclauses := clause.or.items; }

    if |subclauses| > 0 {
      var joiner := if clause.and.Present? then And else Or;
      assert View(clause) == Branch(joiner, subclauses);
      var clStrings;
      ghost var texts, states := PartsCompile(e, clause, queryvars.vars);
      clStrings := CompileSubclauses(e, subclauses, queryvars, clause, texts, states);
      text := "(" + Join(clStrings, joiner.Text()) + ")";
    } else if clause.geo != NoGeo {
      text := Print(Near(clause.geo.geo));
    } else {
      text := CompileLeaf(e, clause, queryvars);
    }
  }

  /**
   * The loop over subclauses: each adds its own text to the list and its own bindings to the map, in their
   * order. `states` are the maps before the first subclause, between any two, and after the last.
   */
  method CompileSubclauses(e: Env, subclauses: seq<Clause>, queryvars: QueryVars, ghost parent: Clause,
      ghost texts: seq<string>, ghost states: seq<map<string, string>>) returns (clStrings: seq<string>)
    requires |texts| == |subclauses| && |states| == |subclauses| + 1 && states[0] == queryvars.vars
    requires forall k :: 0 <= k < |subclauses| ==> subclauses[k] < parent && GeoClausesValid(subclauses[k])
    requires forall k :: 0 <= k < |subclauses| ==> Compiles(e, subclauses[k], texts[k], states[k], states[k + 1])
    modifies queryvars
    ensures clStrings == texts
    ensures queryvars.vars == states[|subclauses|]
    decreases parent, 0
  {
    clStrings := [];
    for k := 0 to |subclauses|
      invariant clStrings == texts[..k]
      invariant queryvars.vars == states[k]
    {
      var s := ConstructQueryStringAndAddVars(e, subclauses[k], queryvars);
      SameOutcome(e, subclauses[k], s, texts[k], states[k], queryvars.vars, states[k + 1]);
      TakeNext(texts, k);
      clStrings := clStrings + [s];
    }
    assert texts[..|texts|] == texts;
  }

  lemma TakeNext(texts: seq<string>, k: nat)
    requires k < |texts|
    ensures texts[..k] + [texts[k]] == texts[..k + 1]
  {
  }

  /** A clause compiles to one text and one map. */
  lemma SameOutcome(e: Env, c: Clause, text: string, text': string, before: map<string, string>,
                    after: map<string, string>, after': map<string, string>)
    requires Compiles(e, c, text, before, after) && Compiles(e, c, text', before, after')
    ensures text == text' && after == after'
  {
  }

  /** What compiling a clause comes to: its text, and the map with its bindings written into it. */
  predicate Compiles(e: Env, c: Clause, text: string, before: map<string, string>, after: map<string, string>) {
    text == Print(Lower(e, c)) && after == Bind(before, Bindings(Lower(e, c)))
  }

  /** The texts and the maps of the loop over the parts of a clause. */
  lemma PartsCompile(e: Env, c: Clause, m: map<string, string>)
      returns (texts: seq<string>, states: seq<map<string, string>>)
    requires View(c).Branch?
    ensures texts == PrintAll(Lower(e, c).items) && |texts| == |View(c).items| && |states| == |texts| + 1
    ensures states[0] == m && states[|texts|] == Bind(m, Flatten(BindingsAll(Lower(e, c).items)))
    ensures forall k :: 0 <= k < |texts| ==> Compiles(e, View(c).items[k], texts[k], states[k], states[k + 1])
  {
    var binds := BindingsAll(Lower(e, c).items);
    texts := PrintAll(Lower(e, c).items);
    states := seq(|binds| + 1, k requires 0 <= k <= |binds| => Bind(m, Flatten(binds[..k])));
    forall k | 0 <= k < |texts| ensures Compiles(e, View(c).items[k], texts[k], states[k], states[k + 1]) {
      BindNext(m, binds, k);
    }
    assert binds[..|binds|] == binds;
  }

  lemma BindNext(m: map<string, string>, binds: seq<seq<(string, string)>>, k: nat)
    requires k < |binds|
    ensures Bind(m, Flatten(binds[..k + 1])) == Bind(Bind(m, Flatten(binds[..k])), binds[k])
  {
    assert binds[..k + 1][..k] == binds[..k];
    BindAppend(m, Flatten(binds[..k]), binds[k]);
  }

  /** The leaf branch: the value is defaulted, hashed, and only then rewritten for `has`. */
  method CompileLeaf(e: Env, clause: Clause, queryvars: QueryVars) returns (text: string)
    requires View(clause) == Leaf
    modifies queryvars
    ensures text == Print(Lower(e, clause))
    ensures queryvars.vars == Bind(old(queryvars.vars), Bindings(Lower(e, clause)))
  {
    var op, field, valStr, clVal := RenderLeaf(e, clause);
    BindOne(queryvars.vars, valStr, clVal);
    queryvars.vars := queryvars.vars[valStr := clVal];
    text := op + "(" + field + "," + valStr + ")";
  }

  method RenderLeaf(e: Env, clause: Clause) returns (op: string, field: string, valStr: string, clVal: string)
    requires View(clause) == Leaf
    ensures Lower(e, clause) == Test(op, field, valStr, clVal)
  {
    op := RenderOp(e, clause.op);
    field := RenderField(e, clause.field);
    clVal := clause.val;
    if clVal == "" { clVal := "0"; }
    if field == "m" && clVal == "0" { clVal := e.epoch; }
    assert clVal == LeafValue(e, clause);
    valStr := VarName(e, clVal);
    op, clVal := RewriteHas(op, clVal);
  }

  /** A search is trimmed, and a long one becomes a regular expression. */
  method RewriteHas(op: string, val: string) returns (newOp: string, clVal: string)
    ensures newOp == if op == "has" && IsLong(val) then "regexp" else op
    ensures clVal == if op == "has" then HasText(val) else val
  {
    newOp, clVal := op, val;
    if op == "has" {
      clVal := TrimSpace(clVal);
      if ByteLen(clVal) > 2 {
        newOp := "regexp";
        clVal := CreateRegex(clVal);
      }
    }
  }

  lemma BindOne(m: map<string, string>, variable: string, text: string)
    ensures Bind(m, [(variable, text)]) == m[variable := text]
  {
    assert [(variable, text)][..0] == [];
  }
}
