/**
 * Compiling a filter keeps its meaning: parsing the emitted text and giving each variable the text
 * finally bound to it yields the clause tree again, exactly when no two leaves fight over a variable.
 */
module FilterMeaning {
  import opened Graph
  import opened Text
  import opened FilterCompiler
  import opened Dql
  import opened FilterLexing

  /** Every test names an allowed predicate; for any other the compiler emits an empty name. */
  predicate FieldsAllowed(p: Plan) {
    match p
    case Combine(_, items) => AllAllowed(items)
    case Near(_) => true
    case Test(_, field, _, _) => field != ""
  }

  predicate AllAllowed(items: seq<Plan>) { forall i :: 0 <= i < |items| ==> FieldsAllowed(items[i]) }

  /** The filter a plan's text should parse to. */
  function Tree(p: Plan): Filter {
    match p
    case Combine(joiner, items) => Grouped(joiner, Trees(items))
    case Near(g) => Within(g)
    case Test(op, field, variable, _) => Match(op, field, variable)
  }

  function Trees(items: seq<Plan>): (fs: seq<Filter>)
    ensures |fs| == |items|
    ensures forall i :: 0 <= i < |items| ==> fs[i] == Tree(items[i])
  {
    seq(|items|, i requires 0 <= i < |items| => Tree(items[i]))
  }

  /** The filter a plan means: each test with its own text. */
  function Plain(p: Plan): Filter {
    match p
    case Combine(joiner, items) => Grouped(joiner, Plains(items))
    case Near(g) => Within(g)
    case Test(op, field, _, text) => Match(op, field, text)
  }

  function Plains(items: seq<Plan>): (fs: seq<Filter>)
    ensures |fs| == |items|
    ensures forall i :: 0 <= i < |items| ==> fs[i] == Plain(items[i])
  {
    seq(|items|, i requires 0 <= i < |items| => Plain(items[i]))
  }

  lemma {:induction false} ArgsEndExact(args: seq<Token>, rest: seq<Token>)
    requires RParen !in args
    ensures ArgsEnd(args + [RParen] + rest) == |args|
  {
    if args == [] {
      assert [] + [RParen] + rest == [RParen] + rest;
    } else {
      assert (args + [RParen] + rest)[1..] == args[1..] + [RParen] + rest;
      ArgsEndExact(args[1..], rest);
    }
  }

  /** A call reads as what its arguments make of it. */
  lemma ParseCall(op: string, args: seq<Token>, rest: seq<Token>)
    requires RParen !in args
    ensures ParseAtom([Word(op), LParen] + args + [RParen] + rest)
         == match CallOf(op, args)
            case None => Fail
            case Some(f) => Ok(f, rest)
  {
    var after := args + [RParen] + rest;
    var ts := [Word(op), LParen] + after;
    CallTokens([Word(op), LParen], args, RParen, rest);
    assert ts[2..] == after;
    ArgsEndExact(args, rest);
    AroundOne(args, RParen, rest);
  }

  lemma AroundOne(args: seq<Token>, c: Token, rest: seq<Token>)
    ensures (args + [c] + rest)[..|args|] == args && (args + [c] + rest)[|args| + 1..] == rest
  {
    assert args + [c] + rest == args + ([c] + rest);
    assert ([c] + rest)[1..] == rest;
  }

  lemma CallTokens(open: seq<Token>, args: seq<Token>, close: Token, rest: seq<Token>)
    ensures open + args + [close] + rest == open + (args + [close] + rest)
  {
  }

  lemma ParseTest(op: string, field: string, variable: string, rest: seq<Token>)
    requires op != NEAR && op != UID_IN && "$vv" <= variable
    ensures ParseAtom([Word(op), LParen] + (if field == "" then [] else [Word(field)])
                      + [Comma, Word(variable), RParen] + rest)
         == if field != "" then Ok(Match(op, field, variable), rest) else Fail
  {
    var name := if field == "" then [] else [Word(field)];
    var args := name + [Comma, Word(variable)];
    ParseCall(op, args, rest);
    TestTokens([Word(op), LParen], name, Comma, Word(variable), RParen, rest);
    if field != "" {
      assert args == [Word(field), Comma, Word(variable)];
      assert variable != TRUE by { assert variable[0] == '$'; }
    } else {
      assert args == [Comma, Word(variable)];
    }
  }

  lemma TestTokens(open: seq<Token>, name: seq<Token>, a: Token, b: Token, c: Token, rest: seq<Token>)
    ensures open + name + [a, b, c] + rest == open + (name + [a, b]) + [c] + rest
  {
  }

  lemma NearCall(lon: string, lat: string, distance: string, args: seq<Token>)
    requires args == [Word(GEO_FIELD), Comma, LBracket, Word(lon), Comma, Word(lat), RBracket, Comma, Word(distance)]
    ensures RParen !in args && CallOf(NEAR, args) == Some(Within(Geo(lon, lat, distance)))
  {
  }

  lemma NearTokens(g: Geo, args: seq<Token>)
    requires args == [Word(GEO_FIELD), Comma, LBracket, Word(g.lon), Comma, Word(g.lat), RBracket,
                      Comma, Word(g.distance)]
    ensures Tokens(Near(g)) == [Word(NEAR), LParen] + args + [RParen]
  {
  }

  lemma ParseNear(g: Geo, rest: seq<Token>)
    ensures ParseAtom(Tokens(Near(g)) + rest) == Ok(Within(g), rest)
  {
    var args := [Word(GEO_FIELD), Comma, LBracket, Word(g.lon), Comma, Word(g.lat), RBracket, Comma, Word(g.distance)];
    NearCall(g.lon, g.lat, g.distance, args);
    NearTokens(g, args);
    ParseCall(NEAR, args, rest);
  }

  lemma AroundTokens(open: Token, body: seq<Token>, close: Token, rest: seq<Token>)
    ensures ([open] + body + [close]) + rest == [open] + (body + ([close] + rest))
  {
  }

  /** A group in parentheses, once what stands between them is parsed. */
  lemma ParseCombine(joiner: Joiner, items: seq<Plan>, parts: seq<Filter>, rest: seq<Token>)
    requires ParseOrs(JoinTokens(items, joiner) + ([RParen] + rest))
          == if AllAllowed(items) then Ok(parts, [RParen] + rest) else Fail
    requires Grouped(Or, parts) == Grouped(joiner, Trees(items))
    ensures ParseAtom(Tokens(Combine(joiner, items)) + rest)
         == if AllAllowed(items) then Ok(Grouped(joiner, Trees(items)), rest) else Fail
  {
    var body, after := JoinTokens(items, joiner), [RParen] + rest;
    AroundTokens(LParen, body, RParen, rest);
    Parenthesised(body, rest);
    assert after[1..] == rest;
  }

  /** The tokens of a plan parse as one atom, or not at all when a field is not allowed. */
  lemma {:induction false} ParsePlan(p: Plan, rest: seq<Token>)
    requires Printable(p)
    ensures ParseAtom(Tokens(p) + rest) == if FieldsAllowed(p) then Ok(Tree(p), rest) else Fail
    decreases p, 1
  {
    match p
    case Combine(joiner, items) =>
      if joiner.And? { ParseAndGroup(items, p, rest); } else { ParseOrGroup(items, p, rest); }
    case Near(g) => ParseNear(g, rest);
    case Test(op, field, variable, _) => ParseTest(op, field, variable, rest);
  }

  lemma Parenthesised(body: seq<Token>, rest: seq<Token>)
    ensures ParseAtom([LParen] + (body + ([RParen] + rest)))
         == match ParseOrs(body + ([RParen] + rest))
            case Fail => Fail
            case Ok(parts, after) =>
              if after != [] && after[0] == RParen then Ok(Grouped(Or, parts), after[1..]) else Fail
  {
    assert ([LParen] + (body + ([RParen] + rest)))[1..] == body + ([RParen] + rest);
  }

  /** Where no `or` follows, a conjunction is the only disjunct. */
  lemma SingleDisjunct(ts: seq<Token>, fs: seq<Filter>, ok: bool, rest: seq<Token>)
    requires ParseAnds(ts) == if ok then Ok(fs, rest) else Fail
    requires !StartsWith(rest, Or)
    ensures ParseOrs(ts) == if ok then Ok([Grouped(And, fs)], rest) else Fail
  {
  }

  lemma JoinedHead(items: seq<Plan>, joiner: Joiner, rest: seq<Token>)
    requires |items| > 1
    ensures JoinTokens(items, joiner) + rest
         == Tokens(items[0]) + ([Word(JoinerWord(joiner))] + (JoinTokens(items[1..], joiner) + rest))
  {
  }

  lemma JoinerStarts(joiner: Joiner, other: Joiner, rest: seq<Token>)
    ensures StartsWith([Word(JoinerWord(joiner))] + rest, other) <==> joiner == other
  {
    assert ToLower(JoinerWord(joiner)) == JoinerWord(joiner);
  }

  lemma AllowedHeadAndTail(items: seq<Plan>)
    requires items != []
    ensures AllAllowed(items) <==> FieldsAllowed(items[0]) && AllAllowed(items[1..])
  {
    var tail := items[1..];
    if FieldsAllowed(items[0]) && AllAllowed(tail) {
      forall i | 0 <= i < |items| ensures FieldsAllowed(items[i]) {
        if i > 0 { assert items[i] == tail[i - 1]; }
      }
    }
  }

  lemma TreesHeadAndTail(items: seq<Plan>)
    requires items != []
    ensures Trees(items) == [Tree(items[0])] + Trees(items[1..])
  {
    var tail := items[1..];
    assert forall i :: 0 <= i < |tail| ==> tail[i] == items[i + 1];
  }

  lemma OnlyItem(items: seq<Plan>)
    requires |items| == 1
    ensures AllAllowed(items) <==> FieldsAllowed(items[0])
    ensures Trees(items) == [Tree(items[0])]
  {
  }

  lemma {:induction false} ParseAndList(items: seq<Plan>, parent: Plan, rest: seq<Token>)
    requires items != [] && forall i :: 0 <= i < |items| ==> items[i] < parent && Printable(items[i])
    requires !StartsWith(rest, And)
    ensures ParseAnds(JoinTokens(items, And) + rest) == if AllAllowed(items) then Ok(Trees(items), rest) else Fail
    decreases parent, 0, |items|
  {
    if |items| == 1 {
      OnlyItem(items);
      ParsePlan(items[0], rest);
      assert JoinTokens(items, And) == Tokens(items[0]);
    } else {
      AllowedHeadAndTail(items);
      TreesHeadAndTail(items);
      var more := JoinTokens(items[1..], And) + rest;
      JoinedHead(items, And, rest);
      JoinerStarts(And, And, more);
      ParsePlan(items[0], [Word(JoinerWord(And))] + more);
      ParseAndList(items[1..], parent, rest);
      assert ([Word(JoinerWord(And))] + more)[1..] == more;
    }
  }

  lemma {:induction false} ParseOrList(items: seq<Plan>, parent: Plan, rest: seq<Token>)
    requires items != [] && forall i :: 0 <= i < |items| ==> items[i] < parent && Printable(items[i])
    requires !StartsWith(rest, And) && !StartsWith(rest, Or)
    ensures ParseOrs(JoinTokens(items, Or) + rest) == if AllAllowed(items) then Ok(Trees(items), rest) else Fail
    decreases parent, 0, |items|
  {
    if |items| == 1 {
      OnlyItem(items);
      ParsePlan(items[0], rest);
    } else {
      AllowedHeadAndTail(items);
      TreesHeadAndTail(items);
      var more := JoinTokens(items[1..], Or) + rest;
      JoinedHead(items, Or, rest);
      JoinerStarts(Or, And, more);
      JoinerStarts(Or, Or, more);
      ParsePlan(items[0], [Word(JoinerWord(Or))] + more);
      ParseOrList(items[1..], parent, rest);
      assert ([Word(JoinerWord(Or))] + more)[1..] == more;
    }
  }

  lemma {:induction false} ParseAndGroup(items: seq<Plan>, parent: Plan, rest: seq<Token>)
    requires items != [] && forall i :: 0 <= i < |items| ==> items[i] < parent && Printable(items[i])
    ensures ParseAtom(Tokens(Combine(And, items)) + rest)
         == if AllAllowed(items) then Ok(Grouped(And, Trees(items)), rest) else Fail
    decreases parent, 0, |items| + 1
  {
    var after := [RParen] + rest;
    ParseAndList(items, parent, after);
    SingleDisjunct(JoinTokens(items, And) + after, Trees(items), AllAllowed(items), after);
    ParseCombine(And, items, [Grouped(And, Trees(items))], rest);
  }

  lemma {:induction false} ParseOrGroup(items: seq<Plan>, parent: Plan, rest: seq<Token>)
    requires items != [] && forall i :: 0 <= i < |items| ==> items[i] < parent && Printable(items[i])
    ensures ParseAtom(Tokens(Combine(Or, items)) + rest)
         == if AllAllowed(items) then Ok(Grouped(Or, Trees(items)), rest) else Fail
    decreases parent, 0, |items| + 1
  {
    ParseOrList(items, parent, [RParen] + rest);
    ParseCombine(Or, items, Trees(items), rest);
  }

  /** Whole text: it parses exactly when every field is allowed, and then to the plan's tree. */
  lemma ParsePrinted(p: Plan)
    requires Printable(p)
    ensures ParseFilter(Print(p)) == if FieldsAllowed(p) then Some(Tree(p)) else None
  {
    LexPrint(p);
    assert Print(p) + "" == Print(p);
    assert Lex(Print(p)) == Tokens(p) + Lex("");
    ParsePlan(p, []);
    SingleDisjunct(Tokens(p) + [], [Tree(p)], FieldsAllowed(p), []);
  }

  // ---------------------------------------------------------------- variables

  /** No variable is bound to two texts. */
  predicate Consistent(bs: seq<(string, string)>) {
    forall i, j :: 0 <= i < |bs| && 0 <= j < |bs| && bs[i].0 == bs[j].0 ==> bs[i].1 == bs[j].1
  }

  /** The map agrees with every binding. */
  predicate Agrees(vars: map<string, string>, bs: seq<(string, string)>) {
    forall i :: 0 <= i < |bs| ==> bs[i].0 in vars && vars[bs[i].0] == bs[i].1
  }

  /** The final map agrees with all the writes exactly when no two of them conflict. */
  lemma {:induction false} BindAgrees(m: map<string, string>, bs: seq<(string, string)>)
    ensures forall i :: 0 <= i < |bs| ==> bs[i].0 in Bind(m, bs)
    ensures Agrees(Bind(m, bs), bs) <==> Consistent(bs)
  {
    if bs != [] {
      var front, last := bs[..|bs| - 1], bs[|bs| - 1];
      BindAgrees(m, front);
      if Consistent(bs) {
        assert Consistent(front);
        forall i | 0 <= i < |bs| ensures bs[i].0 in Bind(m, bs) && Bind(m, bs)[bs[i].0] == bs[i].1 {
          if i < |front| { assert bs[i] == front[i]; }
        }
      }
      forall i | 0 <= i < |bs| ensures bs[i].0 in Bind(m, bs) {
        if i < |front| { assert bs[i] == front[i]; }
      }
    }
  }

  lemma ResolveGrouped(joiner: Joiner, parts: seq<Filter>, vars: map<string, string>)
    ensures Resolve(Grouped(joiner, parts), vars) == Grouped(joiner, ResolveAll(parts, vars))
  {
  }

  lemma {:induction false} AgreesFlat(vars: map<string, string>, bss: seq<seq<(string, string)>>)
    ensures Agrees(vars, Flatten(bss)) <==> forall i :: 0 <= i < |bss| ==> Agrees(vars, bss[i])
  {
    if bss != [] {
      var front, last := bss[..|bss| - 1], bss[|bss| - 1];
      AgreesFlat(vars, front);
      AgreesAppend(vars, Flatten(front), last);
      if forall i :: 0 <= i < |front| ==> Agrees(vars, front[i]) {
        forall i | 0 <= i < |bss| && Agrees(vars, last) ensures Agrees(vars, bss[i]) {
          if i < |front| { assert bss[i] == front[i]; }
        }
      }
      if forall i :: 0 <= i < |bss| ==> Agrees(vars, bss[i]) {
        forall i | 0 <= i < |front| ensures Agrees(vars, front[i]) { assert front[i] == bss[i]; }
      }
    }
  }

  lemma AgreesAppend(vars: map<string, string>, a: seq<(string, string)>, b: seq<(string, string)>)
    ensures Agrees(vars, a + b) <==> Agrees(vars, a) && Agrees(vars, b)
  {
    if Agrees(vars, a + b) {
      forall i | 0 <= i < |a| ensures a[i].0 in vars && vars[a[i].0] == a[i].1 { assert (a + b)[i] == a[i]; }
      forall i | 0 <= i < |b| ensures b[i].0 in vars && vars[b[i].0] == b[i].1 { assert (a + b)[|a| + i] == b[i]; }
    }
  }

  predicate Bound(vars: map<string, string>, bs: seq<(string, string)>) {
    forall i :: 0 <= i < |bs| ==> bs[i].0 in vars
  }

  /** Where all its variables are bound, a parsed tree resolves to its meaning exactly when the map agrees. */
  lemma {:induction false} ResolveExact(p: Plan, vars: map<string, string>)
    requires Printable(p) && Bound(vars, Bindings(p))
    ensures Resolve(Tree(p), vars) == Plain(p) <==> Agrees(vars, Bindings(p))
  {
    match p
    case Combine(joiner, items) =>
      var bss := BindingsAll(items);
      forall i | 0 <= i < |items|
        ensures ResolveAll(Trees(items), vars)[i] == Plains(items)[i] <==> Agrees(vars, bss[i])
      {
        BoundPart(vars, bss, i);
        ResolveExact(items[i], vars);
      }
      ResolveGrouped(joiner, Trees(items), vars);
      GroupedInjective(joiner, ResolveAll(Trees(items), vars), Plains(items));
      AgreesFlat(vars, bss);
    case Near(_) =>
    case Test(_, _, variable, text) =>
      assert Bindings(p)[0] == (variable, text);
  }

  lemma BoundPart(vars: map<string, string>, bss: seq<seq<(string, string)>>, i: nat)
    requires i < |bss| && Bound(vars, Flatten(bss))
    ensures Bound(vars, bss[i])
  {
    FlattenContains(bss, i);
    forall k | 0 <= k < |bss[i]| ensures bss[i][k].0 in vars {
      assert bss[i][k] in Flatten(bss);
    }
  }

  lemma GroupedInjective(joiner: Joiner, a: seq<Filter>, b: seq<Filter>)
    requires |a| == |b| > 0
    ensures Grouped(joiner, a) == Grouped(joiner, b) <==> forall i :: 0 <= i < |a| ==> a[i] == b[i]
  {
  }

  lemma {:induction false} FlattenContains(bss: seq<seq<(string, string)>>, i: nat)
    requires i < |bss|
    ensures forall k :: 0 <= k < |bss[i]| ==> bss[i][k] in Flatten(bss)
  {
    if i < |bss| - 1 {
      FlattenContains(bss[..|bss| - 1], i);
      assert bss[..|bss| - 1][i] == bss[i];
    }
  }
}
