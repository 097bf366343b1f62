/**
 * The parts of a query's text that a request fills in beside its filters (services/db.go): the predicate to
 * follow, the page arguments, the selection and the values of `$ids` and `$rdepth`; and how Dgraph reads each.
 */
module QueryParts {
  import opened Graph
  import opened Text
  import opened Declarations
  import opened ReadFilter
  import opened Query

  /** `getEdgePredicateName`. */
  function EdgeName(et: EdgeType): string {
    match et
    case NodeNode => "e"
    case UserNode => "nodes"
    case UserShare => "shr"
    case UserSharedWith => "~shr"
  }

  /** The predicate a traversal follows, by its name. */
  function ReadEdge(name: string): Option<EdgeType> {
    if name == "e" then Some(NodeNode)
    else if name == "nodes" then Some(UserNode)
    else if name == "shr" then Some(UserShare)
    else if name == "~shr" then Some(UserSharedWith)
    else None
  }

  lemma EdgeReadsBack(et: EdgeType)
    ensures ReadEdge(EdgeName(et)) == Some(et)
  {
  }

  // ------------------------------------------------------------------- the traversal's variables

  /** The value of `$ids`: a bracketed list. */
  function ReadIds(text: string): Option<seq<string>> {
    if |text| < 2 || text[0] != '[' || text[|text| - 1] != ']' then None
    else if |text| == 2 then Some([])
    else Some(Split(text[1..|text| - 1], ','))
  }

  predicate AllDigits(s: string) { s != "" && forall k :: 0 <= k < |s| ==> '0' <= s[k] <= '9' }

  /** The value of `$rdepth`. */
  function ReadCount(text: string): Option<nat> {
    if AllDigits(text) then Some(DigitsValue(text)) else None
  }

  /** A sanitised uid has no comma and is not empty, so a list of them reads back. */
  lemma IdsReadBack(ids: seq<string>)
    requires forall id :: id in ids ==> id != "" && ',' !in id
    ensures ReadIds("[" + Join(ids, ",") + "]") == Some(ids)
  {
    var inner := Join(ids, ",");
    var text := "[" + inner + "]";
    assert text[1..|text| - 1] == inner;
    if ids != [] {
      assert ids[0] in ids;
      JoinNotEmpty(ids, ",");
      SplitOfJoin(ids, ',');
    }
  }

  lemma JoinNotEmpty(parts: seq<string>, sep: string)
    requires parts != [] && parts[0] != ""
    ensures Join(parts, sep) != ""
  {
  }

  lemma CountReadsBack(n: nat)
    ensures ReadCount(Decimal(n)) == Some(n)
  {
    DecimalValue(n);
  }

  // ------------------------------------------------------------------- the arguments of similar_to

  /** What follows the predicate in `similar_to`: how many, and the vector in quotes. */
  function SimilarArgs(topK: nat, vector: string): string { Decimal(topK) + ", \"" + vector + "\"" }

  function ReadSimilar(text: string): Option<(nat, string)> {
    var parts := Split(text, '"');
    if |parts| != 3 || parts[2] != "" then None
    else if |parts[0]| < 2 || parts[0][|parts[0]| - 2..] != ", " then None
    else
      match ReadCount(parts[0][..|parts[0]| - 2])
      case None => None
      case Some(topK) => Some((topK, parts[1]))
  }

  lemma SimilarReadsBack(topK: nat, vector: string)
    requires '"' !in vector
    ensures ReadSimilar(SimilarArgs(topK, vector)) == Some((topK, vector))
  {
    var left := Decimal(topK) + ", ";
    CountReadsBack(topK);
    QuotedSplits(left, vector);
    assert SimilarArgs(topK, vector) == left + "\"" + (vector + "\"");
    assert left[|left| - 2..] == ", " && left[..|left| - 2] == Decimal(topK);
  }

  lemma QuotedSplits(left: string, quoted: string)
    requires '"' !in left && '"' !in quoted
    ensures Split(left + "\"" + (quoted + "\""), '"') == [left, quoted, ""]
  {
    SplitAt(left, '"', quoted + "\"");
    assert quoted + "\"" == quoted + "\"" + "";
    SplitAt(quoted, '"', "");
  }

  // ------------------------------------------------------------------- the page arguments

  const DESC := "orderdesc: "
  const ASC := "orderasc: "
  const FIRST := "first: "
  const OFFSET := "offset: "
  const AFTER := "after: "

  function OrderPart(p: Page): seq<string> { if p.order != "" then [(if p.desc then DESC else ASC) + p.order] else [] }

  function NumberPart(tag: string, n: Option<int>): seq<string> {
    if n.Some? then [tag + SignedDecimal(n.value)] else []
  }

  function AfterPart(p: Page): seq<string> { if p.after.Some? then [AFTER + p.after.value] else [] }

  function PageParts(p: Page): seq<string> {
    OrderPart(p) + NumberPart(FIRST, p.first) + NumberPart(OFFSET, p.offset) + AfterPart(p)
  }

  function PageArgs(p: Page): string { if PageParts(p) == [] then "" else ", " + Join(PageParts(p), ", ") }

  /** `renderPagination`. */
  method RenderPagination(p: Page) returns (text: string)
    ensures text == PageArgs(p)
  {
    var parts := [];
    if p.order != "" {
      if p.desc { parts := parts + [DESC + p.order]; } else { parts := parts + [ASC + p.order]; }
    }
    if p.first.Some? { parts := parts + [FIRST + SignedDecimal(p.first.value)]; }
    if p.offset.Some? { parts := parts + [OFFSET + SignedDecimal(p.offset.value)]; }
    if p.after.Some? { parts := parts + [AFTER + p.after.value]; }
    assert parts == PageParts(p);
    if |parts| == 0 { return ""; }
    return ", " + Join(parts, ", ");
  }

  /** How Dgraph reads them: a comma, then `label: value` pairs, each label once. */
  function ReadPage(text: string): Option<Page> {
    if text == "" then Some(NO_PAGE)
    else if |text| < 3 || text[0] != ',' || text[1] != ' ' then None
    else
      match ReadParams(text[2..])
      case None => None
      case Some(args) => ReadArgs(args)
  }

  const NO_PAGE := Page("", false, None, None, None)

  function ReadArgs(args: seq<Decl>): Option<Page> {
    if args == [] then Some(NO_PAGE)
    else
      match ReadArgs(args[..|args| - 1])
      case None => None
      case Some(page) => AddArg(page, args[|args| - 1].name, args[|args| - 1].kind)
  }

  function AddArg(page: Page, key: string, text: string): Option<Page> {
    if key == "orderasc" && page.order == "" && text != "" then Some(page.(order := text, desc := false))
    else if key == "orderdesc" && page.order == "" && text != "" then Some(page.(order := text, desc := true))
    else if key == "first" && page.first.None? && IsInteger(text) then Some(page.(first := Some(Integer(text))))
    else if key == "offset" && page.offset.None? && IsInteger(text) then Some(page.(offset := Some(Integer(text))))
    else if key == "after" && page.after.None? then Some(page.(after := Some(text)))
    else None
  }

  predicate IsInteger(text: string) { AllDigits(Unsigned(text)) }

  function Unsigned(text: string): string { if text != "" && text[0] == '-' then text[1..] else text }

  function Integer(text: string): int
    requires IsInteger(text)
  {
    if text[0] == '-' then 0 - DigitsValue(Unsigned(text)) else DigitsValue(Unsigned(text))
  }

  lemma NegativeReadsBack(digits: string, n: int)
    requires AllDigits(digits) && DigitsValue(digits) == n
    ensures IsInteger("-" + digits) && Integer("-" + digits) == -n
  {
    assert ("-" + digits)[1..] == digits;
  }

  lemma PositiveReadsBack(digits: string, n: nat)
    requires AllDigits(digits) && DigitsValue(digits) == n
    ensures IsInteger(digits) && Integer(digits) == n
  {
    assert digits[0] != '-';
  }

  lemma IntegerReadsBack(n: int)
    ensures IsInteger(SignedDecimal(n)) && Integer(SignedDecimal(n)) == n
  {
    if n < 0 {
      DecimalValue(-n);
      NegativeReadsBack(Decimal(-n), -n);
    } else {
      DecimalValue(n);
      PositiveReadsBack(Decimal(n), n);
    }
  }

  lemma DigitsArePlain(digits: string)
    requires AllDigits(digits)
    ensures PlainName(digits) && PlainName("-" + digits)
  {
  }

  lemma IntegerIsPlain(n: int)
    ensures PlainName(SignedDecimal(n))
  {
    DigitsArePlain(Decimal(if n < 0 then -n else n));
  }

  /** A page whose names are fit to be sent; without an order there is no direction. */
  predicate GoodPage(p: Page) {
    && (if p.order == "" then !p.desc else PlainName(p.order))
    && (p.after.Some? ==> PlainName(p.after.value))
  }

  /** The same arguments as declarations. */
  function OrderArgs(p: Page): seq<Decl> {
    if p.order != "" then [Decl(if p.desc then "orderdesc" else "orderasc", p.order)] else []
  }

  function NumberArgs(key: string, n: Option<int>): seq<Decl> {
    if n.Some? then [Decl(key, SignedDecimal(n.value))] else []
  }

  function AfterArgs(p: Page): seq<Decl> { if p.after.Some? then [Decl("after", p.after.value)] else [] }

  lemma LabelShows(tag: string, key: string, text: string)
    requires tag == key + ": "
    ensures Show(Decl(key, text)) == tag + text
  {
  }

  lemma OrderShows(p: Page)
    ensures ShowAll(OrderArgs(p)) == OrderPart(p)
  {
    if p.order != "" {
      if p.desc { LabelShows(DESC, "orderdesc", p.order); } else { LabelShows(ASC, "orderasc", p.order); }
    }
  }

  lemma NumberShows(tag: string, key: string, n: Option<int>)
    requires tag == key + ": "
    ensures ShowAll(NumberArgs(key, n)) == NumberPart(tag, n)
  {
    if n.Some? { LabelShows(tag, key, SignedDecimal(n.value)); }
  }

  lemma AfterShows(p: Page)
    ensures ShowAll(AfterArgs(p)) == AfterPart(p)
  {
    if p.after.Some? { LabelShows(AFTER, "after", p.after.value); }
  }

  lemma ShowPlus(a: seq<Decl>, b: seq<Decl>)
    ensures ShowAll(a + b) == ShowAll(a) + ShowAll(b)
  {
  }

  function Args(p: Page): seq<Decl> {
    OrderArgs(p) + NumberArgs("first", p.first) + NumberArgs("offset", p.offset) + AfterArgs(p)
  }

  lemma ArgsShow(p: Page)
    ensures ShowAll(Args(p)) == PageParts(p)
  {
    var a, b, c, d := OrderArgs(p), NumberArgs("first", p.first), NumberArgs("offset", p.offset), AfterArgs(p);
    OrderShows(p);
    NumberShows(FIRST, "first", p.first);
    NumberShows(OFFSET, "offset", p.offset);
    AfterShows(p);
    ShowPlus(a, b);
    ShowPlus(a + b, c);
    ShowPlus(a + b + c, d);
  }

  predicate GoodArgs(args: seq<Decl>) { forall d :: d in args ==> PlainName(d.name) && PlainName(d.kind) }

  lemma GoodPlus(a: seq<Decl>, b: seq<Decl>)
    requires GoodArgs(a) && GoodArgs(b)
    ensures GoodArgs(a + b)
  {
  }

  lemma NumberArgsAreGood(key: string, n: Option<int>)
    requires PlainName(key)
    ensures GoodArgs(NumberArgs(key, n))
  {
    if n.Some? { IntegerIsPlain(n.value); }
  }

  lemma LabelsAreGood()
    ensures PlainName("orderasc") && PlainName("orderdesc") && PlainName("first") && PlainName("offset")
    ensures PlainName("after")
  {
  }

  lemma ArgsAreGood(p: Page)
    requires GoodPage(p)
    ensures GoodArgs(Args(p))
  {
    var a, b, c, d := OrderArgs(p), NumberArgs("first", p.first), NumberArgs("offset", p.offset), AfterArgs(p);
    LabelsAreGood();
    NumberArgsAreGood("first", p.first);
    NumberArgsAreGood("offset", p.offset);
    GoodPlus(a, b);
    GoodPlus(a + b, c);
    GoodPlus(a + b + c, d);
  }

  lemma ReadOneArg(args: seq<Decl>, d: Decl)
    ensures ReadArgs(args + [d])
         == match ReadArgs(args)
            case None => None
            case Some(page) => AddArg(page, d.name, d.kind)
  {
    assert (args + [d])[..|args|] == args;
  }

  lemma ReadNumber(args: seq<Decl>, key: string, n: Option<int>)
    requires key == "first" || key == "offset"
    requires ReadArgs(args).Some?
    requires if key == "first" then ReadArgs(args).value.first.None? else ReadArgs(args).value.offset.None?
    ensures ReadArgs(args + NumberArgs(key, n))
         == Some(if key == "first" then ReadArgs(args).value.(first := n) else ReadArgs(args).value.(offset := n))
  {
    if n.Some? {
      IntegerReadsBack(n.value);
      ReadOneArg(args, Decl(key, SignedDecimal(n.value)));
    } else {
      assert args + [] == args;
    }
  }

  lemma ReadOrder(p: Page)
    requires GoodPage(p)
    ensures ReadArgs(OrderArgs(p)) == Some(NO_PAGE.(order := p.order, desc := p.desc))
  {
    if p.order != "" {
      assert OrderArgs(p)[..0] == [];
    }
  }

  lemma ReadAfter(args: seq<Decl>, p: Page)
    requires ReadArgs(args).Some? && ReadArgs(args).value.after.None?
    ensures ReadArgs(args + AfterArgs(p)) == Some(ReadArgs(args).value.(after := p.after))
  {
    if p.after.Some? {
      ReadOneArg(args, Decl("after", p.after.value));
    } else {
      assert args + [] == args;
    }
  }

  lemma ArgsReadBack(p: Page)
    requires GoodPage(p)
    ensures ReadArgs(Args(p)) == Some(p)
  {
    ReadOrder(p);
    ReadNumber(OrderArgs(p), "first", p.first);
    ReadNumber(OrderArgs(p) + NumberArgs("first", p.first), "offset", p.offset);
    ReadAfter(OrderArgs(p) + NumberArgs("first", p.first) + NumberArgs("offset", p.offset), p);
  }

  /** The page arguments read back as the page. */
  lemma PageReadsBack(p: Page)
    requires GoodPage(p)
    ensures ReadPage(PageArgs(p)) == Some(p)
  {
    ArgsReadBack(p);
    ArgsShow(p);
    ArgsAreGood(p);
    ReadRendered(Args(p));
    if PageParts(p) == [] {
      assert Args(p) == [] by { assert |ShowAll(Args(p))| == 0; }
    } else {
      AfterComma(Join(PageParts(p), ", "));
      JoinNotEmpty(PageParts(p), ", ");
    }
  }

  lemma AfterComma(text: string)
    ensures (", " + text)[2..] == text && |", " + text| == |text| + 2
    ensures (", " + text)[0] == ',' && (", " + text)[1] == ' '
  {
  }
}
