/**
 * The text that `QueryWithOptions` sends (services/db.go): the templates, the fragments that fill them,
 * and the chain of replacements, which puts every fragment in its place unless a share group's id
 * holds one of the last two markers.
 */
module QuerySent {
  import opened Graph
  import opened Text
  import opened Uid
  import opened FilterCompiler
  import opened Query
  import opened QueryParts
  import opened QueryText
  import opened Selection
  import Declarations
  import QueryParams

  const QVARS := "__QVARS__"
  const ROOTQUERY := "__ROOTQUERY__"
  const EDGETYPE := "__EDGETYPE__"
  const PAGEARGS := "__PAGEARGS__"
  const FILTERS := "__FILTERS__"
  const FIELDS := "__FIELDS__"

  // ------------------------------------------------------------------- the templates

  const OPENING := "\n\t\tquery q("
  const OPENING_IDS := "query q("
  const CLOSING := ")\n\t\t"
  const CLOSING_IDS := ")"

  const SIMILAR := ") {\n\t\t\tqr(func: similar_to(vec, "
  const BY_RADIUS := ") {\n\t\t\tqr(func: "
  const BY_QUERY := ") {\n\t\t\tqr(func:  "
  const RECURSE_FROM := ") {\n\t\t\t\tvar(func: uid("
  const RECURSE_DEPTH := ")) @recurse(depth: "
  const RECURSE_ALONG := ") \n\t\t\t\t{\n\t\t\t\t  NID as uid\n\t\t\t\t  "
  const RECURSE_END := "\n\t\t\t\t}\n\t\t\t  \n\t\t\t\tqr(func: uid(NID)"
  const FROM_IDS := ") {\n\t\t\t\tqr(func: uid("

  const FILTER_OPEN := "  @filter("
  const FILTER_END := ")\n\t\t\t{\n\t\t\t\t"
  const FILTER_CLOSE := FILTER_END + NODE_FIELDS
  const END := "\n\t\t\t}\n\t\t}"

  function Opening(root: Root): string { if root.Reached? || root.Listed? then OPENING_IDS else OPENING }

  function Closing(root: Root): string { if root.Reached? || root.Listed? then CLOSING_IDS else CLOSING }

  /**
   * The part between the parameter list and the page arguments; `start` is the root query or the predicate to
   * follow.
   */
  function Middle(root: Root, start: string): seq<string> {
    match root
    case Nearest(vector, topK) => [SIMILAR, SimilarArgs(topK, vector), ")"]
    case InRadius(geo) => [BY_RADIUS, Print(Near(geo))]
    case Found(_) => [BY_QUERY, start]
    case Reached(_, _, _) => [RECURSE_FROM, IDS, RECURSE_DEPTH, RDEPTH, RECURSE_ALONG, start, RECURSE_END]
    case Listed(_) => [FROM_IDS, IDS, ")"]
  }

  function Head(root: Root, qvars: string, start: string, page: string): seq<string> {
    [Opening(root), qvars] + Middle(root, start) + [page, Closing(root)]
  }

  /** The block's filter and selection, the same for every root. */
  function Tail(filter: string, fields: string): seq<string> { [FILTER_OPEN, filter, FILTER_CLOSE, fields, END] }

  function StartMarker(root: Root): string { if root.Reached? then EDGETYPE else ROOTQUERY }

  function StartText(root: Root): string {
    match root
    case Found(text) => text
    case Reached(_, _, et) => EdgeName(et)
    case _ => ""
  }

  function ParamList(root: Root, order: seq<string>): string {
    Join(Declarations.ShowAll(QueryParams.FixedDecls(root)) + QueryParams.Declare(QueryParams.ValueVars(order)), ", ")
  }

  /** The template with every fragment in its place; `order` is that in which the variable map is iterated. */
  function QueryFor(e: Env, b: Built, order: seq<string>): string {
    Cat(Head(b.root, ParamList(b.root, order), StartText(b.root), PageArgs(b.page))
        + Tail(b.filter, Join(FieldTexts(e, b.fields), " ")))
  }

  // -------------------------------------------------------------- which texts are harmless

  /** Text without an underscore or a capital, hence without any part of a marker. */
  predicate Plain(s: string) { forall i :: 0 <= i < |s| ==> !MarkerChar(s[i]) }

  lemma PlainIsQuiet(s: string)
    requires Plain(s)
    ensures Quiet(s)
  {
  }

  predicate AllPlain(parts: seq<string>) { forall i :: 0 <= i < |parts| ==> Plain(parts[i]) }

  lemma {:induction false} PlainJoin(parts: seq<string>, sep: string)
    requires AllPlain(parts) && Plain(sep)
    ensures Plain(Join(parts, sep))
  {
    if |parts| > 1 { PlainJoin(parts[1..], sep); }
  }

  /** The allow-lists and the digest are in lower case, without an underscore. */
  ghost predicate EnvTidy(e: Env) {
    && (forall op :: op in e.ops ==> Plain(op))
    && (forall f :: f in e.fields ==> Plain(f))
    && (forall v :: Plain(e.digest(v)))
  }

  lemma DeployedIsTidy(e: Env)
    requires e.ops == ALLOWED_OPS && e.fields == ALLOWED_FIELDS
    requires forall v, i :: 0 <= i < |e.digest(v)| ==> IsLowerHex(e.digest(v)[i])
    ensures EnvTidy(e)
  {
    forall v ensures Plain(e.digest(v)) {
      forall i | 0 <= i < |e.digest(v)| ensures !MarkerChar(e.digest(v)[i]) { assert IsLowerHex(e.digest(v)[i]); }
    }
  }

  predicate PlainPlan(p: Plan) {
    match p
    case Combine(_, items) => forall i :: 0 <= i < |items| ==> PlainPlan(items[i])
    case Near(g) => Plain(g.lon) && Plain(g.lat) && Plain(g.distance)
    case Test(op, field, variable, _) => Plain(op) && Plain(field) && Plain(variable)
  }

  lemma {:induction false} PlainPrint(p: Plan)
    requires PlainPlan(p)
    ensures Plain(Print(p))
  {
    match p
    case Combine(joiner, items) =>
      forall i | 0 <= i < |items| ensures Plain(PrintAll(items)[i]) { PlainPrint(items[i]); }
      JoinersArePlain();
      PlainJoin(PrintAll(items), joiner.Text());
    case _ =>
  }

  lemma JoinersArePlain()
    ensures Plain(And.Text()) && Plain(Or.Text())
  {
  }

  lemma DecimalHasNoMarker(s: string)
    requires DecimalText(s)
    ensures Plain(s)
  {
  }

  lemma LeafWordsArePlain(e: Env, c: Clause)
    requires EnvTidy(e)
    ensures Plain(LeafOp(e, c)) && Plain(RenderField(e, c.field)) && Plain(VarName(e, LeafValue(e, c)))
  {
    assert Plain("has") && Plain("regexp");
    VarNameIsPlain(e, LeafValue(e, c));
  }

  lemma VarNameIsPlain(e: Env, val: string)
    requires EnvTidy(e)
    ensures Plain(VarName(e, val))
  {
    assert Plain(e.digest(val));
  }

  lemma {:induction false} PlainLower(e: Env, c: Clause)
    requires EnvTidy(e) && GeoClausesValid(c)
    ensures PlainPlan(Lower(e, c))
  {
    match View(c)
    case Branch(_, items) =>
      forall i | 0 <= i < |items| ensures PlainPlan(Lower(e, items[i])) { PlainLower(e, items[i]); }
    case Radius =>
      DecimalHasNoMarker(c.geo.geo.lon);
      DecimalHasNoMarker(c.geo.geo.lat);
      DecimalHasNoMarker(c.geo.geo.distance);
    case Leaf => LeafWordsArePlain(e, c);
  }

  /** A compiled clause is plain text. */
  lemma CompiledIsPlain(e: Env, c: Clause)
    requires EnvTidy(e) && GeoClausesValid(c)
    ensures Plain(Print(Lower(e, c)))
  {
    PlainLower(e, c);
    PlainPrint(Lower(e, c));
  }

  lemma CanonicalIsPlain(uid: string)
    requires Canonical(uid)
    ensures Plain(uid)
  {
    forall i | 0 <= i < |uid| ensures !MarkerChar(uid[i]) {
      if i < 2 { assert uid[i] == uid[..2][i]; }
    }
  }

  lemma SignedDecimalIsPlain(n: int)
    ensures Plain(SignedDecimal(n))
  {
  }

  predicate PlainPage(p: Page) { Plain(p.order) && (p.after.Some? ==> Plain(p.after.value)) }

  lemma LabelsArePlain()
    ensures Plain(DESC) && Plain(ASC) && Plain(FIRST) && Plain(OFFSET) && Plain(AFTER)
  {
  }

  lemma PlainPlus(a: string, b: string)
    requires Plain(a) && Plain(b)
    ensures Plain(a + b)
  {
  }

  lemma NumberPartIsPlain(tag: string, n: Option<int>)
    requires Plain(tag)
    ensures AllPlain(NumberPart(tag, n))
  {
    if n.Some? {
      SignedDecimalIsPlain(n.value);
      PlainPlus(tag, SignedDecimal(n.value));
    }
  }

  lemma AllPlainPlus(a: seq<string>, b: seq<string>)
    requires AllPlain(a) && AllPlain(b)
    ensures AllPlain(a + b)
  {
  }

  lemma PagePartsArePlain(p: Page)
    requires PlainPage(p)
    ensures AllPlain(PageParts(p))
  {
    LabelsArePlain();
    NumberPartIsPlain(FIRST, p.first);
    NumberPartIsPlain(OFFSET, p.offset);
    PlainPlus(if p.desc then DESC else ASC, p.order);
    if p.after.Some? { PlainPlus(AFTER, p.after.value); }
    AllPlainPlus(OrderPart(p), NumberPart(FIRST, p.first));
    AllPlainPlus(OrderPart(p) + NumberPart(FIRST, p.first), NumberPart(OFFSET, p.offset));
    AllPlainPlus(OrderPart(p) + NumberPart(FIRST, p.first) + NumberPart(OFFSET, p.offset), AfterPart(p));
  }

  /** The page arguments are plain, and bring a comma unless there are none. */
  lemma PageArgsFit(p: Page)
    requires PlainPage(p)
    ensures Plain(PageArgs(p)) && Tells(PageArgs(p), ',')
  {
    PagePartsArePlain(p);
    assert Plain(", ");
    PlainJoin(PageParts(p), ", ");
    if PageParts(p) != [] { assert PageArgs(p)[0] == ','; }
  }

  lemma {:induction false} FieldTextsArePlain(e: Env, select: seq<string>)
    requires EnvTidy(e)
    ensures AllPlain(FieldTexts(e, select))
  {
    if select != [] {
      FieldTextsArePlain(e, select[..|select| - 1]);
      EdgeFieldsArePlain();
    }
  }

  lemma EdgeFieldsArePlain()
    ensures Plain(EDGE_FIELDS)
  {
  }

  lemma FieldsArePlain(e: Env, select: seq<string>)
    requires EnvTidy(e)
    ensures Plain(Join(FieldTexts(e, select), " "))
  {
    FieldTextsArePlain(e, select);
    PlainJoin(FieldTexts(e, select), " ");
  }

  lemma FirstIsShown(parts: seq<string>, sep: string, c: char)
    requires parts != [] && c in parts[0]
    ensures c in Join(parts, sep)
  {
  }

  /** The parameter list brings a dollar sign unless it is empty. */
  lemma ParamListTells(root: Root, order: seq<string>)
    ensures Tells(ParamList(root, order), '$')
  {
    var fixed := Declarations.ShowAll(QueryParams.FixedDecls(root));
    var values := QueryParams.Declare(QueryParams.ValueVars(order));
    var parts := fixed + values;
    if fixed != [] {
      assert QueryParams.FixedDecls(root)[0].name == IDS;
      assert parts[0][0] == IDS[0] == '$';
      FirstIsShown(parts, ", ", '$');
    } else if values != [] {
      assert QueryParams.IsValueVar(QueryParams.ValueVars(order)[0]);
      assert parts[0][0] == QueryParams.VV[0] == '$';
      FirstIsShown(parts, ", ", '$');
    }
  }

  // ------------------------------------------------------------------- the templates' text

  lemma MarkersAreMarkers()
    ensures IsMarker(QVARS) && IsMarker(ROOTQUERY) && IsMarker(EDGETYPE)
    ensures IsMarker(PAGEARGS) && IsMarker(FILTERS) && IsMarker(FIELDS)
  {
  }

  lemma MarkersDiffer()
    ensures QVARS[2] == 'Q' && ROOTQUERY[2] == 'R' && EDGETYPE[2] == 'E' && PAGEARGS[2] == 'P'
    ensures FILTERS[2] == FIELDS[2] == 'F' && FILTERS[4] == 'L' && FIELDS[4] == 'E'
  {
  }

  lemma EndsAreQuiet()
    ensures Quiet(OPENING) && Quiet(OPENING_IDS) && Quiet(CLOSING) && Quiet(CLOSING_IDS)
  {
  }

  lemma SimilarIsQuiet(topK: nat, vector: string)
    requires Quiet(vector)
    ensures Quiet(SIMILAR) && Quiet(SimilarArgs(topK, vector))
  {
    assert Quiet(", \"") && Quiet("\"");
    PlainIsQuiet(Decimal(topK));
    QuietJoin(Decimal(topK), ", \"");
    QuietJoin(Decimal(topK) + ", \"", vector);
    QuietJoin(Decimal(topK) + ", \"" + vector, "\"");
  }

  lemma RecurseIsQuiet()
    ensures Quiet(RECURSE_FROM) && Quiet(RECURSE_DEPTH) && Quiet(IDS) && Quiet(RDEPTH)
  {
  }

  lemma RecurseEndIsQuiet()
    ensures Quiet(RECURSE_ALONG) && Quiet(RECURSE_END)
  {
  }

  lemma StartsAreQuiet()
    ensures Quiet(BY_RADIUS) && Quiet(BY_QUERY) && Quiet(FROM_IDS) && Quiet(")")
  {
  }

  lemma FilterOpenIsQuiet()
    ensures Quiet(FILTER_OPEN) && Quiet(END)
  {
  }

  lemma FilterCloseIsQuiet()
    ensures Quiet(FILTER_CLOSE)
  {
    NodeFieldsAreQuiet();
    QuietJoin(FILTER_END, NODE_FIELDS);
  }

  lemma NodeFieldsAreQuiet()
    ensures Quiet(FILTER_END) && Quiet(NODE_FIELDS)
  {
  }

  /** What the request puts into the template itself is quiet. */
  predicate RootQuiet(root: Root) {
    match root
    case Nearest(vector, _) => Quiet(vector)
    case InRadius(geo) => Plain(Print(Near(geo)))
    case Found(text) => Plain(text)
    case _ => true
  }

  lemma MiddleIsOther(root: Root, start: string, m: string)
    requires RootQuiet(root) && Other(start, m)
    ensures Others(Middle(root, start), m)
  {
    match root
    case Nearest(vector, topK) =>
      SimilarIsQuiet(topK, vector);
      StartsAreQuiet();
    case InRadius(geo) =>
      StartsAreQuiet();
      PlainIsQuiet(Print(Near(geo)));
    case Found(_) => StartsAreQuiet();
    case Reached(_, _, _) =>
      RecurseIsQuiet();
      RecurseEndIsQuiet();
    case Listed(_) =>
      StartsAreQuiet();
      RecurseIsQuiet();
  }

  lemma EndsAreOther(root: Root, m: string)
    ensures Others([Opening(root)], m) && Others([Closing(root)], m) && Others([Closing(root), FILTER_OPEN], m)
  {
    EndsAreQuiet();
    FilterOpenIsQuiet();
  }

  lemma HeadIsOther(root: Root, qvars: string, start: string, page: string, m: string)
    requires RootQuiet(root) && Other(qvars, m) && Other(start, m) && Other(page, m)
    ensures Others(Head(root, qvars, start, page), m)
    ensures Others([Opening(root), qvars] + Middle(root, start), m)
  {
    MiddleIsOther(root, start, m);
    EndsAreOther(root, m);
    OthersJoin([Opening(root), qvars], Middle(root, start), m);
    OthersJoin([Opening(root), qvars] + Middle(root, start), [page, Closing(root)], m);
  }

  // ------------------------------------------------------------------- the calls

  /** The pieces around the root query, or around the predicate to follow. */
  function BeforeStart(root: Root): seq<string> {
    if root.Reached? then [RECURSE_FROM, IDS, RECURSE_DEPTH, RDEPTH, RECURSE_ALONG] else [BY_QUERY]
  }

  function AfterStart(root: Root): seq<string> { if root.Reached? then [RECURSE_END] else [] }

  lemma MarkerOrQuiet(m: string)
    requires m == QVARS || m == PAGEARGS || m == ROOTQUERY || m == EDGETYPE || m == FILTERS || m == FIELDS
    ensures IsMarker(m)
    ensures m != QVARS ==> Other(QVARS, m)
    ensures m != PAGEARGS ==> Other(PAGEARGS, m)
    ensures m != FILTERS ==> Other(FILTERS, m)
  {
    MarkersAreMarkers();
  }

  lemma HeadAroundStart(root: Root, qvars: string, start: string, page: string)
    requires root.Found? || root.Reached?
    ensures Head(root, qvars, start, page)
         == ([Opening(root), qvars] + BeforeStart(root)) + [start] + (AfterStart(root) + [page, Closing(root)])
  {
  }

  lemma AroundStartIsOther(root: Root, m: string)
    requires root.Found? || root.Reached?
    requires Other(QVARS, m) && Other(PAGEARGS, m)
    ensures Others([Opening(root), QVARS] + BeforeStart(root), m)
      && Others(AfterStart(root) + [PAGEARGS, Closing(root)], m)
  {
    StartsAreQuiet();
    RecurseIsQuiet();
    RecurseEndIsQuiet();
    EndsAreOther(root, m);
    OthersJoin([Opening(root), QVARS], BeforeStart(root), m);
    OthersJoin(AfterStart(root), [PAGEARGS, Closing(root)], m);
  }

  /** The first call fills the start, right in front of the page arguments' marker if it is a root query. */
  lemma FillStart(root: Root)
    requires root.Found? || root.Reached?
    ensures ReplaceAll(Cat(Head(root, QVARS, StartMarker(root), PAGEARGS)), StartMarker(root), StartText(root))
         == Cat(Head(root, QVARS, StartText(root), PAGEARGS))
  {
    var m, start := StartMarker(root), StartText(root);
    MarkersDiffer();
    MarkerOrQuiet(m);
    AroundStartIsOther(root, m);
    ReplaceAt([Opening(root), QVARS] + BeforeStart(root), m, AfterStart(root) + [PAGEARGS, Closing(root)], start);
    HeadAroundStart(root, QVARS, m, PAGEARGS);
    HeadAroundStart(root, QVARS, start, PAGEARGS);
  }

  lemma FillFields(root: Root, start: string, fields: string)
    requires RootQuiet(root) && Quiet(start)
    ensures ReplaceAll(Cat(Head(root, QVARS, start, PAGEARGS) + Tail(FILTERS, FIELDS)), FIELDS, fields)
         == Cat(Head(root, QVARS, start, PAGEARGS) + Tail(FILTERS, fields))
  {
    var head := Head(root, QVARS, start, PAGEARGS);
    MarkersDiffer();
    MarkerOrQuiet(FIELDS);
    HeadIsOther(root, QVARS, start, PAGEARGS, FIELDS);
    FilterOpenIsQuiet();
    FilterCloseIsQuiet();
    FieldsAmongPieces(head, FILTER_OPEN, FILTERS, FILTER_CLOSE, FIELDS, END);
    FieldsAmongPieces(head, FILTER_OPEN, FILTERS, FILTER_CLOSE, fields, END);
    ReplaceAt(head + [FILTER_OPEN, FILTERS, FILTER_CLOSE], FIELDS, [END], fields);
  }

  lemma FieldsAmongPieces(head: seq<string>, a: string, b: string, c: string, fields: string, d: string)
    ensures head + [a, b, c, fields, d] == (head + [a, b, c]) + [fields] + [d]
  {
  }

  /** Whatever the filter says. */
  lemma FillFilter(root: Root, start: string, filter: string, fields: string)
    requires RootQuiet(root) && Quiet(start) && Quiet(fields)
    ensures ReplaceAll(Cat(Head(root, QVARS, start, PAGEARGS) + Tail(FILTERS, fields)), FILTERS, filter)
         == Cat(Head(root, QVARS, start, PAGEARGS) + Tail(filter, fields))
  {
    var head := Head(root, QVARS, start, PAGEARGS);
    MarkersDiffer();
    MarkerOrQuiet(FILTERS);
    HeadIsOther(root, QVARS, start, PAGEARGS, FILTERS);
    FilterOpenIsQuiet();
    FilterCloseIsQuiet();
    FilterAmongPieces(head, FILTER_OPEN, FILTERS, FILTER_CLOSE, fields, END);
    FilterAmongPieces(head, FILTER_OPEN, filter, FILTER_CLOSE, fields, END);
    ReplaceAt(head + [FILTER_OPEN], FILTERS, [FILTER_CLOSE, fields, END], filter);
  }

  lemma FilterAmongPieces(head: seq<string>, a: string, filter: string, b: string, c: string, d: string)
    ensures head + [a, filter, b, c, d] == (head + [a]) + [filter] + [b, c, d]
  {
  }

  /** The text before the filter, and that after it. */
  function Front(root: Root, qvars: string, start: string, page: string): string {
    Cat(Head(root, qvars, start, page) + [FILTER_OPEN])
  }

  function Rear(fields: string): string { Cat([FILTER_CLOSE, fields, END]) }

  lemma AroundFilter(root: Root, qvars: string, start: string, page: string, filter: string, fields: string)
    ensures Cat(Head(root, qvars, start, page) + Tail(filter, fields))
         == Front(root, qvars, start, page) + filter + Rear(fields)
  {
    var a, b := Head(root, qvars, start, page) + [FILTER_OPEN], [FILTER_CLOSE, fields, END];
    assert Head(root, qvars, start, page) + Tail(filter, fields) == a + ([filter] + b);
    CatAppend(a, [filter] + b);
    assert ([filter] + b)[1..] == b;
    assert Cat([filter] + b) == filter + Cat(b);
    QueryText.TextRegroup(Cat(a), filter, Cat(b));
  }

  lemma {:induction false} EndOfCat(a: seq<string>, last: string)
    requires last != "" && ClosedRight(last)
    ensures Cat(a + [last]) != "" && ClosedRight(Cat(a + [last]))
  {
    if a != [] {
      EndOfCat(a[1..], last);
      assert (a + [last])[1..] == a[1..] + [last];
    } else {
      assert a + [last] == [last];
      assert Cat([last]) == last + Cat([]);
    }
  }

  lemma FilterIsBetweenClosed(root: Root, qvars: string, start: string, page: string, fields: string)
    ensures ClosedRight(Front(root, qvars, start, page)) && ClosedLeft(Rear(fields))
  {
    FilterOpenIsQuiet();
    FilterCloseIsQuiet();
    EndOfCat(Head(root, qvars, start, page), FILTER_OPEN);
    assert Rear(fields)[0] == FILTER_CLOSE[0];
  }

  lemma RearIsOther(fields: string, m: string)
    requires Quiet(fields)
    ensures Others([FILTER_CLOSE, fields, END], m)
  {
    FilterOpenIsQuiet();
    FilterCloseIsQuiet();
  }

  lemma FrontPage(root: Root, start: string, page: string)
    requires RootQuiet(root) && Quiet(start)
    ensures ReplaceAll(Front(root, QVARS, start, PAGEARGS), PAGEARGS, page) == Front(root, QVARS, start, page)
  {
    MarkersDiffer();
    MarkerOrQuiet(PAGEARGS);
    HeadIsOther(root, QVARS, start, "", PAGEARGS);
    EndsAreOther(root, PAGEARGS);
    var a := [Opening(root), QVARS] + Middle(root, start);
    PageAmongPieces(a, PAGEARGS, Closing(root), FILTER_OPEN);
    PageAmongPieces(a, page, Closing(root), FILTER_OPEN);
    ReplaceAt(a, PAGEARGS, [Closing(root), FILTER_OPEN], page);
  }

  lemma PageAmongPieces(a: seq<string>, page: string, c: string, d: string)
    ensures (a + [page, c]) + [d] == a + [page] + [c, d]
  {
  }

  lemma FrontAroundParams(root: Root, qvars: string, start: string, page: string)
    ensures Head(root, qvars, start, page) + [FILTER_OPEN]
         == [Opening(root)] + [qvars] + (Middle(root, start) + ([page] + [Closing(root), FILTER_OPEN]))
  {
  }

  lemma FrontParams(root: Root, params: string, start: string, page: string)
    requires RootQuiet(root) && Quiet(start) && Quiet(page)
    ensures ReplaceAll(Front(root, QVARS, start, page), QVARS, params) == Front(root, params, start, page)
  {
    MarkerOrQuiet(QVARS);
    MiddleIsOther(root, start, QVARS);
    EndsAreOther(root, QVARS);
    OthersJoin([page], [Closing(root), FILTER_OPEN], QVARS);
    OthersJoin(Middle(root, start), [page] + [Closing(root), FILTER_OPEN], QVARS);
    ReplaceAt([Opening(root)], QVARS, Middle(root, start) + ([page] + [Closing(root), FILTER_OPEN]), params);
    FrontAroundParams(root, QVARS, start, page);
    FrontAroundParams(root, params, start, page);
  }

  /** The last two calls also reach into the filter. */
  lemma FillPage(root: Root, start: string, page: string, filter: string, fields: string)
    requires RootQuiet(root) && Quiet(start) && Quiet(fields)
    ensures ReplaceAll(Cat(Head(root, QVARS, start, PAGEARGS) + Tail(filter, fields)), PAGEARGS, page)
         == Cat(Head(root, QVARS, start, page) + Tail(ReplaceAll(filter, PAGEARGS, page), fields))
  {
    MarkersAreMarkers();
    AroundFilter(root, QVARS, start, PAGEARGS, filter, fields);
    FilterIsBetweenClosed(root, QVARS, start, PAGEARGS, fields);
    RearIsOther(fields, PAGEARGS);
    ReplaceAround(Front(root, QVARS, start, PAGEARGS), filter, [FILTER_CLOSE, fields, END], PAGEARGS, page);
    FrontPage(root, start, page);
    AroundFilter(root, QVARS, start, page, ReplaceAll(filter, PAGEARGS, page), fields);
  }

  lemma FillParams(root: Root, params: string, start: string, page: string, filter: string, fields: string)
    requires RootQuiet(root) && Quiet(start) && Quiet(page) && Quiet(fields)
    ensures ReplaceAll(Cat(Head(root, QVARS, start, page) + Tail(filter, fields)), QVARS, params)
         == Cat(Head(root, params, start, page) + Tail(ReplaceAll(filter, QVARS, params), fields))
  {
    MarkersAreMarkers();
    AroundFilter(root, QVARS, start, page, filter, fields);
    FilterIsBetweenClosed(root, QVARS, start, page, fields);
    RearIsOther(fields, QVARS);
    ReplaceAround(Front(root, QVARS, start, page), filter, [FILTER_CLOSE, fields, END], QVARS, params);
    FrontParams(root, params, start, page);
    AroundFilter(root, params, start, page, ReplaceAll(filter, QVARS, params), fields);
  }

  /** What the last two calls make of a filter. */
  function AfterLastCalls(filter: string, page: string, params: string): string {
    ReplaceAll(ReplaceAll(filter, PAGEARGS, page), QVARS, params)
  }

  predicate Tidy(b: Built) { RootQuiet(b.root) && PlainPage(b.page) }

  lemma StartIsQuiet(root: Root)
    requires RootQuiet(root)
    ensures Quiet(StartText(root))
  {
  }

  /** The chain of replacements in `QueryWithOptions`, on the template of the request's root. */
  method RenderQuery(e: Env, b: Built, order: seq<string>) returns (query: string)
    requires EnvTidy(e) && Tidy(b)
    ensures query
         == QueryFor(e, b.(filter := AfterLastCalls(b.filter, PageArgs(b.page), ParamList(b.root, order))), order)
  {
    ghost var start := StartText(b.root);
    StartIsQuiet(b.root);
    MarkersAreMarkers();
    query := Cat(Head(b.root, QVARS, StartMarker(b.root), PAGEARGS));
    if b.root.Found? || b.root.Reached? {
      FillStart(b.root);
      query := ReplaceAll(query, StartMarker(b.root), StartText(b.root));
    }
    CatAppend(Head(b.root, QVARS, start, PAGEARGS), Tail(FILTERS, FIELDS));
    query := query + Cat(Tail(FILTERS, FIELDS));
    var fields := RenderFields(e, b.fields);
    FieldsArePlain(e, b.fields);
    FillFields(b.root, start, fields);
    query := ReplaceAll(query, FIELDS, fields);
    FillFilter(b.root, start, b.filter, fields);
    query := ReplaceAll(query, FILTERS, b.filter);
    var page := RenderPagination(b.page);
    PageArgsFit(b.page);
    FillPage(b.root, start, page, b.filter, fields);
    query := ReplaceAll(query, PAGEARGS, page);
    var params := QueryParams.RenderQueryParams(Declarations.ShowAll(QueryParams.FixedDecls(b.root)), order);
    FillParams(b.root, params, start, page, ReplaceAll(b.filter, PAGEARGS, page), fields);
    query := ReplaceAll(query, QVARS, params);
  }
}
