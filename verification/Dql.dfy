/**
 * The part of Dgraph's filter language that Cogged emits: a lexer, a precedence parser in which
 * `and` binds tighter than `or`, and the meaning of a parsed filter.
 */
module Dql {
  import opened Graph
  import opened Text
  import opened FilterCompiler

  datatype Token = LParen | RParen | LBracket | RBracket | Comma | Word(text: string) | Quoted(text: string) | Bad

  predicate WordChar(c: char) {
    'A' <= c <= 'Z' || 'a' <= c <= 'z' || '0' <= c <= '9' || c == '_' || c == '$' || c == '.' || c == '-'
  }

  predicate IsWord(s: string) { s != "" && forall i :: 0 <= i < |s| ==> WordChar(s[i]) }

  /** Length of the longest prefix made of word characters. */
  function WordLen(s: string): (n: nat)
    ensures n <= |s|
    ensures n > 0 <==> s != "" && WordChar(s[0])
  {
    if s != "" && WordChar(s[0]) then 1 + WordLen(s[1..]) else 0
  }

  function QuoteLen(s: string): (n: nat)
    ensures n <= |s|
  {
    if s == "" || s[0] == '"' then 0 else 1 + QuoteLen(s[1..])
  }

  function Punctuation(c: char): Option<Token> {
    if c == '(' then Some(LParen) else if c == ')' then Some(RParen)
    else if c == '[' then Some(LBracket) else if c == ']' then Some(RBracket)
    else if c == ',' then Some(Comma) else None
  }

  function Lex(s: string): seq<Token> {
    if s == "" then []
    else if IsSpace(s[0]) then Lex(s[1..])
    else if Punctuation(s[0]).Some? then [Punctuation(s[0]).value] + Lex(s[1..])
    else if s[0] == '"' then
      var n := QuoteLen(s[1..]);
      if n + 1 == |s| then [Bad] else [Quoted(s[1..n + 1])] + Lex(s[n + 2..])
    else if WordChar(s[0]) then
      var n := WordLen(s);
      [Word(s[..n])] + Lex(s[n..])
    else [Bad]
  }

  /** A parsed filter. The operand of a `Match` is a variable until `Resolve` replaces it by its text. */
  datatype Filter = Group(joiner: Joiner, parts: seq<Filter>)
                  | Within(geo: Geo)
                  | Match(op: string, field: string, operand: string)
                  | OwnedBy(uid: string)
                  | SgiIn(sgis: seq<string>)
                  | CanRead

  datatype Parsed<T> = Fail | Ok(value: T, rest: seq<Token>)

  predicate StartsWith(ts: seq<Token>, joiner: Joiner) {
    ts != [] && ts[0].Word? && ToLower(ts[0].text) == if joiner.And? then "and" else "or"
  }

  /** A group of one is that one. */
  function Grouped(joiner: Joiner, parts: seq<Filter>): Filter {
    if |parts| == 1 then parts[0] else Group(joiner, parts)
  }

  /** Index of the first `)`, or the length. */
  function ArgsEnd(ts: seq<Token>): (n: nat)
    ensures n <= |ts|
    ensures n < |ts| ==> ts[n] == RParen
  {
    if ts == [] || ts[0] == RParen then 0 else 1 + ArgsEnd(ts[1..])
  }

  /** `"a", "b", "c"` up to the closing bracket. */
  function QuotedList(ts: seq<Token>): Option<seq<string>> {
    if |ts| < 2 || !ts[0].Quoted? then None
    else if ts[1..] == [RBracket] then Some([ts[0].text])
    else if ts[1] != Comma then None
    else
      match QuotedList(ts[2..])
      case None => None
      case Some(more) => Some([ts[0].text] + more)
  }

  const OWN := "own"
  const SGI := "sgi"
  const READ := "r"
  const TRUE := "true"
  const NEAR := "near"
  const UID_IN := "uid_in"
  const EQ := "eq"
  const GEO_FIELD := "g"

  /** The functions of the language, told apart by name and argument shape. */
  function CallOf(name: string, args: seq<Token>): Option<Filter> {
    if |args| == 3 && args[0].Word? && args[1] == Comma && args[2].Word? then
      if name == UID_IN then if args[0].text == OWN then Some(OwnedBy(args[2].text)) else None
      else if name == EQ && args[0].text == READ && args[2].text == TRUE then Some(CanRead)
      else if name != NEAR && "$vv" <= args[2].text then Some(Match(name, args[0].text, args[2].text))
      else None
    else if name == NEAR && |args| == 9 && args[0] == Word(GEO_FIELD) && args[1] == Comma && args[2] == LBracket
            && args[3].Word? && args[4] == Comma && args[5].Word? && args[6] == RBracket
            && args[7] == Comma && args[8].Word?
    then Some(Within(Geo(args[3].text, args[5].text, args[8].text)))
    else if name == EQ && |args| >= 3 && args[0] == Word(SGI) && args[1] == Comma && args[2] == LBracket then
      match QuotedList(args[3..])
      case None => None
      case Some(sgis) => Some(SgiIn(sgis))
    else None
  }

  function ParseAtom(ts: seq<Token>): (p: Parsed<Filter>)
    ensures p.Ok? ==> |p.rest| < |ts|
    decreases |ts|, 0
  {
    if ts == [] then Fail
    else if ts[0] == LParen then
      match ParseOrs(ts[1..])
      case Fail => Fail
      case Ok(parts, rest) => if rest != [] && rest[0] == RParen then Ok(Grouped(Or, parts), rest[1..]) else Fail
    else if ts[0].Word? && |ts| >= 2 && ts[1] == LParen then
      var n := ArgsEnd(ts[2..]);
      if n == |ts| - 2 then Fail
      else
        match CallOf(ts[0].text, ts[2..][..n])
        case None => Fail
        case Some(f) => Ok(f, ts[2..][n + 1..])
    else Fail
  }

  function ParseAnds(ts: seq<Token>): (p: Parsed<seq<Filter>>)
    ensures p.Ok? ==> |p.rest| < |ts|
    decreases |ts|, 1
  {
    match ParseAtom(ts)
    case Fail => Fail
    case Ok(f, rest) =>
      if !StartsWith(rest, And) then Ok([f], rest)
      else
        match ParseAnds(rest[1..])
        case Fail => Fail
        case Ok(more, rest') => Ok([f] + more, rest')
  }

  function ParseOrs(ts: seq<Token>): (p: Parsed<seq<Filter>>)
    ensures p.Ok? ==> |p.rest| < |ts|
    decreases |ts|, 2
  {
    match ParseAnds(ts)
    case Fail => Fail
    case Ok(fs, rest) =>
      if !StartsWith(rest, Or) then Ok([Grouped(And, fs)], rest)
      else
        match ParseOrs(rest[1..])
        case Fail => Fail
        case Ok(more, rest') => Ok([Grouped(And, fs)] + more, rest')
  }

  /** The filter a text denotes; `None` is Dgraph's parse error. */
  function ParseFilter(s: string): Option<Filter> {
    match ParseOrs(Lex(s))
    case Fail => None
    case Ok(parts, rest) => if rest == [] then Some(Grouped(Or, parts)) else None
  }

  /** How Dgraph decides one test: abstract, but a test sees only the predicate it names. */
  datatype Tests = Tests(compare: (string, string, Option<string>) -> bool, near: (Geo, Option<string>) -> bool)

  predicate Holds(f: Filter, dg: Tests, n: Node) {
    match f
    case Group(joiner, parts) =>
      if joiner.And? then forall i :: 0 <= i < |parts| ==> Holds(parts[i], dg, n)
      else exists i :: 0 <= i < |parts| && Holds(parts[i], dg, n)
    case Within(geo) => dg.near(geo, Lookup(n.data, GEO_FIELD))
    case Match(op, field, operand) => dg.compare(op, operand, Lookup(n.data, field))
    case OwnedBy(uid) => n.own == Some(uid)
    case SgiIn(sgis) => n.sgi.Some? && n.sgi.value in sgis
    case CanRead => IsSet(n.bits.r)
  }

  /** Every variable replaced by the text the map gives it; an unbound one is the empty text. */
  function Resolve(f: Filter, vars: map<string, string>): Filter {
    match f
    case Group(joiner, parts) => Group(joiner, ResolveAll(parts, vars))
    case Match(op, field, v) => Match(op, field, if v in vars then vars[v] else "")
    case _ => f
  }

  function ResolveAll(parts: seq<Filter>, vars: map<string, string>): (fs: seq<Filter>)
    ensures |fs| == |parts|
    ensures forall i :: 0 <= i < |parts| ==> fs[i] == Resolve(parts[i], vars)
  {
    seq(|parts|, i requires 0 <= i < |parts| => Resolve(parts[i], vars))
  }
}
