/** What the lexer makes of compiled text: one token list per plan, whatever follows it. */
module FilterLexing {
  import opened Text
  import opened FilterCompiler
  import opened Dql

  /** A plan whose every piece is a single word of the language; a test's field may be empty. */
  predicate Printable(p: Plan) {
    match p
    case Combine(_, items) => items != [] && forall i :: 0 <= i < |items| ==> Printable(items[i])
    case Near(g) => IsWord(g.lon) && IsWord(g.lat) && IsWord(g.distance)
    case Test(op, field, variable, _) =>
      && IsWord(op) && op != NEAR && op != UID_IN && (field == "" || IsWord(field))
      && IsWord(variable) && "$vv" <= variable
  }

  function JoinerWord(joiner: Joiner): string { if joiner.And? then "and" else "or" }

  function Tokens(p: Plan): seq<Token> {
    match p
    case Combine(joiner, items) => [LParen] + JoinTokens(items, joiner) + [RParen]
    case Near(g) => [Word(NEAR), LParen, Word(GEO_FIELD), Comma, LBracket, Word(g.lon), Comma, Word(g.lat), RBracket,
                     Comma, Word(g.distance), RParen]
    case Test(op, field, variable, _) =>
      [Word(op), LParen] + (if field == "" then [] else [Word(field)]) + [Comma, Word(variable), RParen]
  }

  function JoinTokens(items: seq<Plan>, joiner: Joiner): seq<Token> {
    if items == [] then []
    else if |items| == 1 then Tokens(items[0])
    else Tokens(items[0]) + [Word(JoinerWord(joiner))] + JoinTokens(items[1..], joiner)
  }

  lemma {:induction false} WordLenExact(w: string, rest: string)
    requires forall i :: 0 <= i < |w| ==> WordChar(w[i])
    requires rest == "" || !WordChar(rest[0])
    ensures WordLen(w + rest) == |w|
  {
    if w == "" {
      assert w + rest == rest;
    } else {
      assert (w + rest)[1..] == w[1..] + rest;
      WordLenExact(w[1..], rest);
    }
  }

  lemma LexWord(w: string, rest: string)
    requires IsWord(w)
    requires rest == "" || !WordChar(rest[0])
    ensures Lex(w + rest) == [Word(w)] + Lex(rest)
  {
    WordLenExact(w, rest);
    assert (w + rest)[0] == w[0];
    assert (w + rest)[..|w|] == w && (w + rest)[|w|..] == rest;
  }

  /** The text lexes to these tokens, whatever follows it. */
  ghost predicate Lexes(s: string, ts: seq<Token>) {
    forall rest :: Lex(s + rest) == ts + Lex(rest)
  }

  lemma LexesBefore(s: string, ts: seq<Token>, rest: string)
    requires Lexes(s, ts)
    ensures Lex(s + rest) == ts + Lex(rest)
  {
  }

  lemma Compose(a: string, ta: seq<Token>, b: string, tb: seq<Token>)
    requires Lexes(a, ta) && Lexes(b, tb)
    ensures Lexes(a + b, ta + tb)
  {
    forall rest ensures Lex((a + b) + rest) == (ta + tb) + Lex(rest) {
      LexesBefore(b, tb, rest);
      LexesBefore(a, ta, b + rest);
      LexRegroup(a, b, rest, ta, tb, Lex(rest));
    }
  }

  lemma LexRegroup(a: string, b: string, rest: string, ta: seq<Token>, tb: seq<Token>, l: seq<Token>)
    requires Lex(a + (b + rest)) == ta + (tb + l)
    ensures Lex((a + b) + rest) == (ta + tb) + l
  {
    assert (a + b) + rest == a + (b + rest);
    assert (ta + tb) + l == ta + (tb + l);
  }

  lemma LexPunctuationBefore(c: char, rest: string)
    requires Punctuation(c).Some?
    ensures Lex([c] + rest) == [Punctuation(c).value] + Lex(rest)
  {
    assert ([c] + rest)[1..] == rest;
  }

  lemma LexPunctuation(c: char)
    requires Punctuation(c).Some?
    ensures Lexes([c], [Punctuation(c).value])
  {
    forall rest ensures Lex([c] + rest) == [Punctuation(c).value] + Lex(rest) {
      LexPunctuationBefore(c, rest);
    }
  }

  lemma LexSpace()
    ensures Lexes([' '], [])
  {
    forall rest ensures Lex([' '] + rest) == [] + Lex(rest) {
      assert ([' '] + rest)[1..] == rest;
    }
  }

  lemma LexWordThen(w: string, c: char)
    requires IsWord(w) && Punctuation(c).Some?
    ensures Lexes(w + [c], [Word(w), Punctuation(c).value])
  {
    forall rest ensures Lex((w + [c]) + rest) == [Word(w), Punctuation(c).value] + Lex(rest) {
      LexWordThenBefore(w, c, rest);
    }
  }

  lemma PunctuationEndsWord(c: char)
    requires Punctuation(c).Some?
    ensures !WordChar(c)
  {
  }

  lemma LexWordThenBefore(w: string, c: char, rest: string)
    requires IsWord(w) && Punctuation(c).Some?
    ensures Lex((w + [c]) + rest) == [Word(w), Punctuation(c).value] + Lex(rest)
  {
    PunctuationEndsWord(c);
    LexWord(w, [c] + rest);
    LexPunctuationBefore(c, rest);
    LexRegroup(w, [c], rest, [Word(w)], [Punctuation(c).value], Lex(rest));
    assert [Word(w)] + [Punctuation(c).value] == [Word(w), Punctuation(c).value];
  }

  lemma LexJoiner(joiner: Joiner)
    ensures Lexes(joiner.Text(), [Word(JoinerWord(joiner))])
  {
    var w := JoinerWord(joiner);
    LexSpacedWord(w);
    assert joiner.Text() == " " + w + " ";
  }

  lemma LexWordSpace(w: string)
    requires IsWord(w)
    ensures Lexes(w + [' '], [Word(w)])
  {
    LexSpace();
    forall rest ensures Lex((w + [' ']) + rest) == [Word(w)] + Lex(rest) {
      assert (w + [' ']) + rest == w + ([' '] + rest);
      LexWord(w, [' '] + rest);
      assert Lex([' '] + rest) == [] + Lex(rest);
    }
  }

  /** A word between single spaces. */
  lemma LexSpacedWord(w: string)
    requires IsWord(w)
    ensures Lexes(" " + w + " ", [Word(w)])
  {
    LexSpace();
    LexWordSpace(w);
    Compose([' '], [], w + [' '], [Word(w)]);
    assert [] + [Word(w)] == [Word(w)];
    assert [' '] + (w + [' ']) == " " + w + " ";
  }

  lemma LexTest(op: string, field: string, variable: string)
    requires IsWord(op) && (field == "" || IsWord(field)) && IsWord(variable)
    ensures Lexes(op + "(" + field + "," + variable + ")",
                  [Word(op), LParen] + (if field == "" then [] else [Word(field)]) + [Comma, Word(variable), RParen])
  {
    var tf := (if field == "" then [] else [Word(field)]) + [Comma];
    LexWordThen(op, '(');
    if field == "" {
      LexPunctuation(',');
      assert field + [','] == [','] && tf == [Comma];
    } else {
      LexWordThen(field, ',');
      assert tf == [Word(field), Comma];
    }
    LexWordThen(variable, ')');
    Compose(op + ['('], [Word(op), LParen], field + [','], tf);
    Compose(op + ['('] + (field + [',']), [Word(op), LParen] + tf, variable + [')'], [Word(variable), RParen]);
    assert op + ['('] + (field + [',']) + (variable + [')']) == op + "(" + field + "," + variable + ")";
    assert [Word(op), LParen] + tf + [Word(variable), RParen]
        == [Word(op), LParen] + (if field == "" then [] else [Word(field)]) + [Comma, Word(variable), RParen];
  }

  /** `, ` and one word and a closing mark. */
  lemma LexArgument(w: string, c: char)
    requires IsWord(w) && Punctuation(c).Some?
    ensures Lexes([' '] + (w + [c]), [Word(w), Punctuation(c).value])
  {
    LexSpace();
    LexWordThen(w, c);
    Compose([' '], [], w + [c], [Word(w), Punctuation(c).value]);
    assert [] + [Word(w), Punctuation(c).value] == [Word(w), Punctuation(c).value];
  }

  /** `lon, lat], distance)`. */
  lemma LexNearArguments(lon: string, lat: string, distance: string)
    requires IsWord(lon) && IsWord(lat) && IsWord(distance)
    ensures Lexes((lon + [',']) + ([' '] + (lat + [']'])) + [','] + ([' '] + (distance + [')'])),
                  [Word(lon), Comma, Word(lat), RBracket, Comma, Word(distance), RParen])
  {
    LexWordThen(lon, ',');
    LexArgument(lat, ']');
    LexPunctuation(',');
    LexArgument(distance, ')');
    var s, ts := (lon + [',']) + ([' '] + (lat + [']'])), [Word(lon), Comma] + [Word(lat), RBracket];
    Compose(lon + [','], [Word(lon), Comma], [' '] + (lat + [']']), [Word(lat), RBracket]);
    Compose(s, ts, [','], [Comma]);
    Compose(s + [','], ts + [Comma], [' '] + (distance + [')']), [Word(distance), RParen]);
    assert ts + [Comma] + [Word(distance), RParen]
        == [Word(lon), Comma, Word(lat), RBracket, Comma, Word(distance), RParen];
  }

  lemma LexNear(g: Geo)
    requires IsWord(g.lon) && IsWord(g.lat) && IsWord(g.distance)
    ensures Lexes(Print(Near(g)), Tokens(Near(g)))
  {
    LexNearOpening();
    LexNearArguments(g.lon, g.lat, g.distance);
    Compose("near(g, [", [Word(NEAR), LParen, Word(GEO_FIELD), Comma, LBracket],
            (g.lon + [',']) + ([' '] + (g.lat + [']'])) + [','] + ([' '] + (g.distance + [')'])),
            [Word(g.lon), Comma, Word(g.lat), RBracket, Comma, Word(g.distance), RParen]);
    NearText("near(g, [", g.lon, g.lat, g.distance);
    assert [Word(NEAR), LParen, Word(GEO_FIELD), Comma, LBracket]
           + [Word(g.lon), Comma, Word(g.lat), RBracket, Comma, Word(g.distance), RParen] == Tokens(Near(g));
  }

  lemma NearText(open: string, lon: string, lat: string, distance: string)
    ensures open + ((lon + [',']) + ([' '] + (lat + [']'])) + [','] + ([' '] + (distance + [')'])))
         == open + lon + ", " + lat + "], " + distance + ")"
  {
    var a := open + lon;
    assert a + [','] + ([' '] + (lat + [']'])) == a + ", " + lat + "]";
    assert (a + ", " + lat + "]") + [','] + ([' '] + (distance + [')'])) == a + ", " + lat + "], " + distance + ")";
  }

  /** `name(field, [`. */
  lemma LexListOpening(name: string, field: string)
    requires IsWord(name) && IsWord(field)
    ensures Lexes((name + ['(']) + (field + [',']) + [' '] + ['['], [Word(name), LParen, Word(field), Comma, LBracket])
  {
    LexWordThen(name, '(');
    LexWordThen(field, ',');
    LexSpace();
    LexPunctuation('[');
    var s, ts := (name + ['(']) + (field + [',']), [Word(name), LParen] + [Word(field), Comma];
    Compose(name + ['('], [Word(name), LParen], field + [','], [Word(field), Comma]);
    Compose(s, ts, [' '], []);
    Compose(s + [' '], ts + [], ['['], [LBracket]);
    assert ts + [] + [LBracket] == [Word(name), LParen, Word(field), Comma, LBracket];
  }

  /** `name(field, arg)`. */
  lemma LexCall(name: string, field: string, arg: string)
    requires IsWord(name) && IsWord(field) && IsWord(arg)
    ensures Lexes((name + ['(']) + (field + [',']) + ([' '] + (arg + [')'])),
                  [Word(name), LParen, Word(field), Comma, Word(arg), RParen])
  {
    LexWordThen(name, '(');
    LexWordThen(field, ',');
    LexArgument(arg, ')');
    var s, ts := (name + ['(']) + (field + [',']), [Word(name), LParen] + [Word(field), Comma];
    Compose(name + ['('], [Word(name), LParen], field + [','], [Word(field), Comma]);
    Compose(s, ts, [' '] + (arg + [')']), [Word(arg), RParen]);
    assert ts + [Word(arg), RParen] == [Word(name), LParen, Word(field), Comma, Word(arg), RParen];
  }

  lemma CallText(name: string, field: string, arg: string)
    ensures (name + ['(']) + (field + [',']) + ([' '] + (arg + [')'])) == name + "(" + field + ", " + arg + ")"
  {
  }

  lemma LexNearOpening()
    ensures Lexes("near(g, [", [Word(NEAR), LParen, Word(GEO_FIELD), Comma, LBracket])
  {
    LexListOpening(NEAR, GEO_FIELD);
    NearOpeningText();
  }

  lemma NearOpeningText()
    ensures NEAR + ['('] + (GEO_FIELD + [',']) + [' '] + ['['] == "near(g, ["
  {
  }

  /** Compiled text lexes to its plan's tokens, and leaves alone whatever comes after. */
  lemma {:induction false} LexPrint(p: Plan)
    requires Printable(p)
    ensures Lexes(Print(p), Tokens(p))
    decreases p, 1
  {
    match p
    case Combine(joiner, items) =>
      var body := Join(PrintAll(items), joiner.Text());
      LexJoined(items, joiner, p);
      LexPunctuation('(');
      LexPunctuation(')');
      Compose(['('], [LParen], body, JoinTokens(items, joiner));
      Compose(['('] + body, [LParen] + JoinTokens(items, joiner), [')'], [RParen]);
      assert ['('] + body + [')'] == Print(p);
    case Near(g) => LexNear(g);
    case Test(op, field, variable, _) => LexTest(op, field, variable);
  }

  lemma {:induction false} LexJoined(items: seq<Plan>, joiner: Joiner, parent: Plan)
    requires items != [] && forall i :: 0 <= i < |items| ==> items[i] < parent && Printable(items[i])
    ensures Lexes(Join(PrintAll(items), joiner.Text()), JoinTokens(items, joiner))
    decreases parent, 0, |items|
  {
    var first := Print(items[0]);
    LexPrint(items[0]);
    if |items| > 1 {
      assert PrintAll(items)[1..] == PrintAll(items[1..]);
      var more := Join(PrintAll(items[1..]), joiner.Text());
      LexJoiner(joiner);
      LexJoined(items[1..], joiner, parent);
      var word := [Word(JoinerWord(joiner))];
      Compose(first, Tokens(items[0]), joiner.Text(), word);
      Compose(first + joiner.Text(), Tokens(items[0]) + word, more, JoinTokens(items[1..], joiner));
    }
  }
}
