/**
 * The read-permission filter ANDed onto every node query (services/db.go) and the test the response
 * layer repeats on every node (responses/cogged.go).
 */
module ReadFilter {
  import opened Graph
  import opened Text
  import opened Uid
  import opened FilterCompiler
  import opened Dql
  import opened FilterLexing
  import opened FilterMeaning
  import Base64Url

  datatype EdgeType = NodeNode | UserNode | UserShare | UserSharedWith

  /** `^[A-Za-z0-9_-]+$`. */
  predicate SgiChars(s: string) { s != "" && forall i :: 0 <= i < |s| ==> Base64Url.InAlphabet(s[i]) }

  function SafeSgis(sgis: seq<string>): (safe: seq<string>)
    ensures forall s :: s in safe <==> s in sgis && SgiChars(s)
  {
    if sgis == [] then []
    else
      var last := sgis[|sgis| - 1];
      SafeSgis(sgis[..|sgis| - 1]) + if SgiChars(last) then [last] else []
  }

  function Quote(sgis: seq<string>): (qs: seq<string>)
    ensures |qs| == |sgis|
    ensures forall i :: 0 <= i < |sgis| ==> qs[i] == "\"" + sgis[i] + "\""
  {
    seq(|sgis|, i requires 0 <= i < |sgis| => "\"" + sgis[i] + "\"")
  }

  function OwnText(uid: string): string { "uid_in(own, " + uid + ")" }

  function SgiText(sgis: seq<string>): string {
    "(eq(sgi, [" + Join(Quote(sgis), ", ") + "]) AND eq(r, true))"
  }

  /** The text of the read restriction for a caller's sanitised uid and usable grants. */
  function AuthzText(uid: string, safe: seq<string>): string {
    if safe == [] then OwnText(uid) else "(" + OwnText(uid) + " OR " + SgiText(safe) + ")"
  }

  /** Whether a query of this kind is restricted at all. */
  predicate Restricted(et: EdgeType, caller: Option<Caller>) {
    et == NodeNode && caller.Some? && !caller.value.IsAdmin()
  }

  method RenderReadAuthzFilter(et: EdgeType, uad: Option<Caller>, allowedSgis: seq<string>) returns (text: string)
    ensures text == if Restricted(et, uad) then AuthzText(SanitiseUID(uad.value.uid), SafeSgis(allowedSgis)) else ""
  {
    if et != NodeNode || uad.None? || uad.value.IsAdmin() { return ""; }
    var ownClause := OwnText(SanitiseUID(uad.value.uid));
    var sgiVals := [];
    for k := 0 to |allowedSgis|
      invariant sgiVals == Quote(SafeSgis(allowedSgis[..k]))
    {
      assert allowedSgis[..k + 1][..k] == allowedSgis[..k];
      if SgiChars(allowedSgis[k]) {
        sgiVals := sgiVals + ["\"" + allowedSgis[k] + "\""];
      }
    }
    assert allowedSgis[..|allowedSgis|] == allowedSgis;
    if |sgiVals| == 0 { return ownClause; }
    return "(" + ownClause + " OR " + ("(eq(sgi, [" + Join(sgiVals, ", ") + "]) AND eq(r, true))") + ")";
  }

  /** The filter the restriction denotes. */
  function AuthzTree(uid: string, safe: seq<string>): Filter {
    if safe == [] then OwnedBy(uid)
    else Group(Or, [OwnedBy(uid), Group(And, [SgiIn(safe), CanRead])])
  }

  // ------------------------------------------------------------------ lexing

  function QuotedTokens(sgis: seq<string>): seq<Token> {
    if sgis == [] then []
    else if |sgis| == 1 then [Quoted(sgis[0])]
    else [Quoted(sgis[0]), Comma] + QuotedTokens(sgis[1..])
  }

  function OwnTokens(uid: string): seq<Token> {
    [Word(UID_IN), LParen, Word(OWN), Comma, Word(uid), RParen]
  }

  const READ_TOKENS := [Word(EQ), LParen, Word(READ), Comma, Word(TRUE), RParen]

  function SgiArgs(sgis: seq<string>): seq<Token> {
    [Word(SGI), Comma, LBracket] + QuotedTokens(sgis) + [RBracket]
  }

  function AuthzTokens(uid: string, safe: seq<string>): seq<Token> {
    if safe == [] then OwnTokens(uid)
    else [LParen] + OwnTokens(uid) + [Word("OR"), LParen, Word(EQ), LParen] + SgiArgs(safe)
         + [RParen, Word("AND")] + READ_TOKENS + [RParen, RParen]
  }

  lemma {:induction false} QuoteLenExact(s: string, rest: string)
    requires forall i :: 0 <= i < |s| ==> s[i] != '"'
    ensures QuoteLen(s + "\"" + rest) == |s|
  {
    if s == "" {
      assert "" + "\"" + rest == "\"" + rest;
    } else {
      assert (s + "\"" + rest)[1..] == s[1..] + "\"" + rest;
      QuoteLenExact(s[1..], rest);
    }
  }

  lemma QuotedText(s: string, rest: string)
    ensures ("\"" + s + "\"") + rest == ['"'] + (s + "\"" + rest)
  {
  }

  lemma LexQuotedBefore(s: string, rest: string)
    requires SgiChars(s)
    ensures Lex(("\"" + s + "\"") + rest) == [Quoted(s)] + Lex(rest)
  {
    QuotedText(s, rest);
    QuoteLenExact(s, rest);
    var body := s + "\"" + rest;
    var t := ['"'] + body;
    assert t[1..] == body;
    assert t[1..|s| + 1] == s && t[|s| + 2..] == rest;
  }

  lemma LexQuoted(s: string)
    requires SgiChars(s)
    ensures Lexes("\"" + s + "\"", [Quoted(s)])
  {
    forall rest ensures Lex(("\"" + s + "\"") + rest) == [Quoted(s)] + Lex(rest) {
      LexQuotedBefore(s, rest);
    }
  }

  lemma LexCommaSpace()
    ensures Lexes(", ", [Comma])
  {
    LexPunctuation(',');
    LexSpace();
    Compose([','], [Comma], [' '], []);
    assert [','] + [' '] == ", " && [Comma] + [] == [Comma];
  }

  lemma {:induction false} LexQuotedList(sgis: seq<string>)
    requires sgis != [] && forall s :: s in sgis ==> SgiChars(s)
    ensures Lexes(Join(Quote(sgis), ", "), QuotedTokens(sgis))
  {
    LexQuoted(sgis[0]);
    if |sgis| > 1 {
      assert Quote(sgis)[1..] == Quote(sgis[1..]);
      LexCommaSpace();
      LexQuotedList(sgis[1..]);
      Compose("\"" + sgis[0] + "\"", [Quoted(sgis[0])], ", ", [Comma]);
      Compose("\"" + sgis[0] + "\"" + ", ", [Quoted(sgis[0])] + [Comma],
              Join(Quote(sgis[1..]), ", "), QuotedTokens(sgis[1..]));
      assert [Quoted(sgis[0])] + [Comma] == [Quoted(sgis[0]), Comma];
    }
  }

  lemma LexOwn(uid: string)
    requires IsWord(uid)
    ensures Lexes(OwnText(uid), OwnTokens(uid))
  {
    LexCall(UID_IN, OWN, uid);
    CallText(UID_IN, OWN, uid);
    assert UID_IN + "(" + OWN + ", " == "uid_in(own, ";
  }

  lemma LexRead()
    ensures Lexes("eq(r, true)", READ_TOKENS)
  {
    LexCall(EQ, READ, TRUE);
    CallText(EQ, READ, TRUE);
    assert EQ + "(" + READ + ", " + TRUE + ")" == "eq(r, true)";
  }

  lemma LexSgiOpening()
    ensures Lexes("(eq(sgi, [", [LParen, Word(EQ), LParen, Word(SGI), Comma, LBracket])
  {
    LexPunctuation('(');
    LexListOpening(EQ, SGI);
    var list := (EQ + ['(']) + (SGI + [',']) + [' '] + ['['];
    Compose(['('], [LParen], list, [Word(EQ), LParen, Word(SGI), Comma, LBracket]);
    assert [LParen] + [Word(EQ), LParen, Word(SGI), Comma, LBracket]
        == [LParen, Word(EQ), LParen, Word(SGI), Comma, LBracket];
    SgiOpeningText();
  }

  lemma SgiOpeningText()
    ensures ['('] + (EQ + ['('] + (SGI + [',']) + [' '] + ['[']) == "(eq(sgi, ["
  {
  }

  lemma LexSgi(sgis: seq<string>)
    requires sgis != [] && forall s :: s in sgis ==> SgiChars(s)
    ensures Lexes(SgiText(sgis),
                  [LParen, Word(EQ), LParen] + SgiArgs(sgis) + [RParen, Word("AND")] + READ_TOKENS + [RParen])
  {
    LexSgiOpening();
    LexQuotedList(sgis);
    LexPunctuation(']');
    LexPunctuation(')');
    LexSpacedWord("AND");
    LexRead();
    var list := Join(Quote(sgis), ", ");
    var t0 := [LParen, Word(EQ), LParen, Word(SGI), Comma, LBracket];
    Compose("(eq(sgi, [", t0, list, QuotedTokens(sgis));
    var s1, t1 := "(eq(sgi, [" + list, t0 + QuotedTokens(sgis);
    Compose(s1, t1, [']'], [RBracket]);
    Compose(s1 + [']'], t1 + [RBracket], [')'], [RParen]);
    var s2, t2 := s1 + [']'] + [')'], t1 + [RBracket] + [RParen];
    Compose(s2, t2, " " + "AND" + " ", [Word("AND")]);
    var s3, t3 := s2 + (" " + "AND" + " "), t2 + [Word("AND")];
    Compose(s3, t3, "eq(r, true)", READ_TOKENS);
    Compose(s3 + "eq(r, true)", t3 + READ_TOKENS, [')'], [RParen]);
    SgiTokensRegroup(QuotedTokens(sgis), READ_TOKENS);
    SgiClosingText(s1);
  }

  lemma SgiTokensRegroup(qs: seq<Token>, read: seq<Token>)
    ensures [LParen, Word(EQ), LParen, Word(SGI), Comma, LBracket] + qs
            + [RBracket] + [RParen] + [Word("AND")] + read + [RParen]
         == [LParen, Word(EQ), LParen] + ([Word(SGI), Comma, LBracket] + qs + [RBracket])
            + [RParen, Word("AND")] + read + [RParen]
  {
  }

  lemma SgiClosingText(s1: string)
    ensures s1 + [']'] + [')'] + (" " + "AND" + " ") + "eq(r, true)" + [')'] == s1 + "]) AND eq(r, true))"
  {
  }

  lemma LexAuthz(uid: string, safe: seq<string>)
    requires IsWord(uid) && forall s :: s in safe ==> SgiChars(s)
    ensures Lexes(AuthzText(uid, safe), AuthzTokens(uid, safe))
  {
    LexOwn(uid);
    if safe != [] {
      LexPunctuation('(');
      LexPunctuation(')');
      LexSpacedWord("OR");
      LexSgi(safe);
      var sgi := [LParen, Word(EQ), LParen] + SgiArgs(safe) + [RParen, Word("AND")] + READ_TOKENS + [RParen];
      Compose(['('], [LParen], OwnText(uid), OwnTokens(uid));
      var s1, t1 := ['('] + OwnText(uid), [LParen] + OwnTokens(uid);
      Compose(s1, t1, " " + "OR" + " ", [Word("OR")]);
      Compose(s1 + (" " + "OR" + " "), t1 + [Word("OR")], SgiText(safe), sgi);
      Compose(s1 + (" " + "OR" + " ") + SgiText(safe), t1 + [Word("OR")] + sgi, [')'], [RParen]);
      AuthzTokensRegroup(t1, SgiArgs(safe), READ_TOKENS);
      assert s1 + (" " + "OR" + " ") == "(" + OwnText(uid) + " OR ";
    }
  }

  lemma AuthzTokensRegroup(t1: seq<Token>, args: seq<Token>, read: seq<Token>)
    ensures t1 + [Word("OR")] + ([LParen, Word(EQ), LParen] + args + [RParen, Word("AND")] + read + [RParen]) + [RParen]
         == t1 + [Word("OR"), LParen, Word(EQ), LParen] + args + [RParen, Word("AND")] + read + [RParen, RParen]
  {
  }

  // ----------------------------------------------------------------- parsing

  lemma QuotedListMore(first: string, more: seq<Token>, sgis: seq<string>)
    requires QuotedList(more) == Some(sgis)
    ensures QuotedList([Quoted(first), Comma] + more) == Some([first] + sgis)
  {
    var ts := [Quoted(first), Comma] + more;
    assert ts[2..] == more;
    assert ts[1..][0] == Comma;
  }

  lemma QuotedListOne(only: string)
    ensures QuotedList([Quoted(only)] + [RBracket]) == Some([only])
  {
    assert ([Quoted(only)] + [RBracket])[1..] == [RBracket];
  }

  lemma {:induction false} QuotedListExact(sgis: seq<string>)
    requires sgis != []
    ensures QuotedList(QuotedTokens(sgis) + [RBracket]) == Some(sgis)
    ensures RParen !in QuotedTokens(sgis)
  {
    if |sgis| > 1 {
      var more := QuotedTokens(sgis[1..]);
      QuotedListExact(sgis[1..]);
      QuotedListMore(sgis[0], more + [RBracket], sgis[1..]);
      assert [Quoted(sgis[0]), Comma] + more + [RBracket] == [Quoted(sgis[0]), Comma] + (more + [RBracket]);
      assert [sgis[0]] + sgis[1..] == sgis;
    } else {
      QuotedListOne(sgis[0]);
      assert [sgis[0]] == sgis;
    }
  }

  lemma ParseOwn(uid: string, rest: seq<Token>)
    ensures ParseAtom(OwnTokens(uid) + rest) == Ok(OwnedBy(uid), rest)
  {
    ParseCall(UID_IN, [Word(OWN), Comma, Word(uid)], rest);
    assert [Word(UID_IN), LParen] + [Word(OWN), Comma, Word(uid)] + [RParen] == OwnTokens(uid);
  }

  lemma ParseRead(rest: seq<Token>)
    ensures ParseAtom(READ_TOKENS + rest) == Ok(CanRead, rest)
  {
    ParseCall(EQ, [Word(READ), Comma, Word(TRUE)], rest);
    assert [Word(EQ), LParen] + [Word(READ), Comma, Word(TRUE)] + [RParen] == READ_TOKENS;
  }

  lemma ParseSgi(sgis: seq<string>, rest: seq<Token>)
    requires sgis != []
    ensures ParseAtom([Word(EQ), LParen] + SgiArgs(sgis) + [RParen] + rest) == Ok(SgiIn(sgis), rest)
  {
    QuotedListExact(sgis);
    var args := SgiArgs(sgis);
    assert args[3..] == QuotedTokens(sgis) + [RBracket];
    assert args[2] == LBracket;
    ParseCall(EQ, args, rest);
  }

  lemma UpperJoiners(rest: seq<Token>)
    ensures StartsWith([Word("AND")] + rest, And) && !StartsWith([Word("AND")] + rest, Or)
    ensures StartsWith([Word("OR")] + rest, Or) && !StartsWith([Word("OR")] + rest, And)
  {
    assert ToLower("AND") == "and" && ToLower("OR") == "or";
  }

  /** `a AND b` for two atoms. */
  lemma ParseConjunction(ta: seq<Token>, a: Filter, tb: seq<Token>, b: Filter, rest: seq<Token>)
    requires ParseAtom(ta + ([Word("AND")] + (tb + rest))) == Ok(a, [Word("AND")] + (tb + rest))
    requires ParseAtom(tb + rest) == Ok(b, rest) && !StartsWith(rest, And)
    ensures ParseAnds(ta + ([Word("AND")] + (tb + rest))) == Ok([a, b], rest)
  {
    UpperJoiners(tb + rest);
    assert ([Word("AND")] + (tb + rest))[1..] == tb + rest;
    assert [a] + [b] == [a, b];
  }

  /** `a OR b` for two atoms. */
  lemma ParseDisjunction(ta: seq<Token>, a: Filter, tb: seq<Token>, b: Filter, rest: seq<Token>)
    requires ParseAtom(ta + ([Word("OR")] + (tb + rest))) == Ok(a, [Word("OR")] + (tb + rest))
    requires ParseOrs(tb + rest) == Ok([b], rest)
    ensures ParseOrs(ta + ([Word("OR")] + (tb + rest))) == Ok([a, b], rest)
  {
    var more := [Word("OR")] + (tb + rest);
    UpperJoiners(tb + rest);
    assert more[1..] == tb + rest;
    assert ParseAnds(ta + more) == Ok([a], more);
    assert [a] + [b] == [a, b];
  }

  lemma SingleAtom(ts: seq<Token>, f: Filter, rest: seq<Token>)
    requires ParseAtom(ts) == Ok(f, rest) && !StartsWith(rest, And) && !StartsWith(rest, Or)
    ensures ParseOrs(ts) == Ok([f], rest)
  {
    SingleDisjunct(ts, [f], true, rest);
  }

  lemma InParentheses(body: seq<Token>, parts: seq<Filter>, rest: seq<Token>)
    requires ParseOrs(body + ([RParen] + rest)) == Ok(parts, [RParen] + rest)
    ensures ParseAtom([LParen] + (body + ([RParen] + rest))) == Ok(Grouped(Or, parts), rest)
  {
    Parenthesised(body, rest);
    assert ([RParen] + rest)[1..] == rest;
  }

  lemma InfixRegroup(ta: seq<Token>, word: Token, tb: seq<Token>, after: seq<Token>)
    ensures (ta + ([word] + tb)) + after == ta + ([word] + (tb + after))
  {
  }

  /** `(a AND b)` for two atoms. */
  lemma ParseAndedGroup(ta: seq<Token>, a: Filter, tb: seq<Token>, b: Filter, rest: seq<Token>)
    requires ParseAtom(ta + ([Word("AND")] + (tb + ([RParen] + rest))))
          == Ok(a, [Word("AND")] + (tb + ([RParen] + rest)))
    requires ParseAtom(tb + ([RParen] + rest)) == Ok(b, [RParen] + rest)
    ensures ParseAtom([LParen] + ((ta + ([Word("AND")] + tb)) + ([RParen] + rest))) == Ok(Group(And, [a, b]), rest)
  {
    ParseConjunction(ta, a, tb, b, [RParen] + rest);
    InfixRegroup(ta, Word("AND"), tb, [RParen] + rest);
    SingleDisjunct(ta + ([Word("AND")] + (tb + ([RParen] + rest))), [a, b], true, [RParen] + rest);
    InParentheses(ta + ([Word("AND")] + tb), [Group(And, [a, b])], rest);
  }

  lemma ParseSgiGroup(sgis: seq<string>, rest: seq<Token>)
    requires sgis != []
    ensures ParseAtom([LParen, Word(EQ), LParen] + SgiArgs(sgis)
                      + [RParen, Word("AND")] + READ_TOKENS + [RParen] + rest)
         == Ok(Group(And, [SgiIn(sgis), CanRead]), rest)
  {
    var ta := [Word(EQ), LParen] + SgiArgs(sgis) + [RParen];
    var after := [RParen] + rest;
    ParseSgi(sgis, [Word("AND")] + (READ_TOKENS + after));
    ParseRead(after);
    ParseAndedGroup(ta, SgiIn(sgis), READ_TOKENS, CanRead, rest);
    SgiGroupRegroup(SgiArgs(sgis), READ_TOKENS, rest);
  }

  lemma SgiGroupRegroup(args: seq<Token>, read: seq<Token>, rest: seq<Token>)
    ensures [LParen, Word(EQ), LParen] + args + [RParen, Word("AND")] + read + [RParen] + rest
         == [LParen] + (([Word(EQ), LParen] + args + [RParen] + ([Word("AND")] + read)) + ([RParen] + rest))
  {
  }

  lemma ParseAuthz(uid: string, safe: seq<string>, rest: seq<Token>)
    ensures ParseAtom(AuthzTokens(uid, safe) + rest) == Ok(AuthzTree(uid, safe), rest)
  {
    if safe == [] {
      ParseOwn(uid, rest);
    } else {
      var sgi := [LParen, Word(EQ), LParen] + SgiArgs(safe) + [RParen, Word("AND")] + READ_TOKENS + [RParen];
      ParseSgiGroup(safe, [RParen] + rest);
      ParseOwn(uid, [Word("OR")] + (sgi + ([RParen] + rest)));
      ParseOredGroup(OwnTokens(uid), OwnedBy(uid), sgi, Group(And, [SgiIn(safe), CanRead]), rest);
      AuthzGroupRegroup(OwnTokens(uid), SgiArgs(safe), READ_TOKENS, rest);
    }
  }

  /** `(a OR b)` for two atoms. */
  lemma ParseOredGroup(ta: seq<Token>, a: Filter, tb: seq<Token>, b: Filter, rest: seq<Token>)
    requires ParseAtom(ta + ([Word("OR")] + (tb + ([RParen] + rest)))) == Ok(a, [Word("OR")] + (tb + ([RParen] + rest)))
    requires ParseAtom(tb + ([RParen] + rest)) == Ok(b, [RParen] + rest)
    ensures ParseAtom([LParen] + ((ta + ([Word("OR")] + tb)) + ([RParen] + rest))) == Ok(Group(Or, [a, b]), rest)
  {
    SingleAtom(tb + ([RParen] + rest), b, [RParen] + rest);
    ParseDisjunction(ta, a, tb, b, [RParen] + rest);
    InfixRegroup(ta, Word("OR"), tb, [RParen] + rest);
    InParentheses(ta + ([Word("OR")] + tb), [a, b], rest);
  }

  lemma AuthzGroupRegroup(own: seq<Token>, args: seq<Token>, read: seq<Token>, rest: seq<Token>)
    ensures ([LParen] + own + [Word("OR"), LParen, Word(EQ), LParen] + args
             + [RParen, Word("AND")] + read + [RParen, RParen]) + rest
         == [LParen]
            + ((own + ([Word("OR")]
                       + ([LParen, Word(EQ), LParen] + args + [RParen, Word("AND")] + read + [RParen])))
               + ([RParen] + rest))
  {
  }

  /** The restricted filter: the user's filter in parentheses, AND the read restriction. */
  function RestrictedText(user: string, authz: string): string { "(" + user + ") AND " + authz }

  /**
   * Whatever the user's filter is, the final text parses to the conjunction of that filter and the
   * read restriction: no `or` inside the user's part, nor inside the restriction, captures the other.
   */
  lemma RestrictionNeverCaptured(p: Plan, uid: string, safe: seq<string>)
    requires Printable(p)
    requires IsWord(uid) && forall s :: s in safe ==> SgiChars(s)
    ensures ParseFilter(RestrictedText(Print(p), AuthzText(uid, safe)))
         == if FieldsAllowed(p) then Some(Group(And, [Tree(p), AuthzTree(uid, safe)])) else None
  {
    LexPrint(p);
    LexAuthz(uid, safe);
    LexRestricted(Print(p), Tokens(p), AuthzText(uid, safe), AuthzTokens(uid, safe));
    ParseRestricted(p, uid, safe);
  }

  lemma ParenthesisedPlan(p: Plan, r: seq<Token>)
    requires Printable(p)
    ensures ParseAtom([LParen] + Tokens(p) + [RParen] + r) == if FieldsAllowed(p) then Ok(Tree(p), r) else Fail
  {
    ParenthesesRegroup(Tokens(p), r);
    Parenthesised(Tokens(p), r);
    OnlyDisjunct(p, [RParen] + r);
  }

  lemma ParenthesesRegroup(ts: seq<Token>, r: seq<Token>)
    ensures [LParen] + ts + [RParen] + r == [LParen] + (ts + ([RParen] + r))
  {
  }

  lemma OnlyDisjunct(p: Plan, after: seq<Token>)
    requires Printable(p) && after != [] && after[0] == RParen
    ensures ParseOrs(Tokens(p) + after) == if FieldsAllowed(p) then Ok([Grouped(And, [Tree(p)])], after) else Fail
  {
    ParsePlan(p, after);
    SingleDisjunct(Tokens(p) + after, [Tree(p)], FieldsAllowed(p), after);
  }

  lemma ParseRestricted(p: Plan, uid: string, safe: seq<string>)
    requires Printable(p)
    ensures ParseOrs([LParen] + Tokens(p) + [RParen, Word("AND")] + AuthzTokens(uid, safe))
         == if FieldsAllowed(p) then Ok([Group(And, [Tree(p), AuthzTree(uid, safe)])], []) else Fail
  {
    var user, authz := [LParen] + Tokens(p) + [RParen], AuthzTokens(uid, safe);
    RestrictedTokensRegroup(Tokens(p), authz);
    ParenthesisedPlan(p, [Word("AND")] + (authz + []));
    if !FieldsAllowed(p) { return; }
    ParseAuthz(uid, safe, []);
    ParseConjunction(user, Tree(p), authz, AuthzTree(uid, safe), []);
    var ts := user + ([Word("AND")] + (authz + []));
    SingleDisjunct(ts, [Tree(p), AuthzTree(uid, safe)], true, []);
  }

  lemma RestrictedTokensRegroup(user: seq<Token>, authz: seq<Token>)
    ensures [LParen] + user + [RParen, Word("AND")] + authz
         == ([LParen] + user + [RParen]) + ([Word("AND")] + (authz + []))
    ensures [LParen] + user + [RParen] + [Word("AND")] + authz == [LParen] + user + [RParen, Word("AND")] + authz
  {
  }

  lemma RestrictedTextRegroup(user: string, authz: string)
    ensures ['('] + user + [')'] + (" " + "AND" + " ") + authz == RestrictedText(user, authz)
  {
    assert [')'] + (" " + "AND" + " ") == ") AND ";
  }

  lemma LexRestricted(user: string, tu: seq<Token>, authz: string, ta: seq<Token>)
    requires Lexes(user, tu) && Lexes(authz, ta)
    ensures Lex(RestrictedText(user, authz)) == [LParen] + tu + [RParen, Word("AND")] + ta
  {
    LexPunctuation('(');
    LexPunctuation(')');
    LexSpacedWord("AND");
    var s1, t1 := ['('] + user, [LParen] + tu;
    Compose(['('], [LParen], user, tu);
    Compose(s1, t1, [')'], [RParen]);
    Compose(s1 + [')'], t1 + [RParen], " " + "AND" + " ", [Word("AND")]);
    var s2, t2 := s1 + [')'] + (" " + "AND" + " "), t1 + [RParen] + [Word("AND")];
    Compose(s2, t2, authz, ta);
    LexesAll(s2 + authz, t2 + ta);
    RestrictedTextRegroup(user, authz);
    RestrictedTokensRegroup(tu, ta);
  }

  lemma LexesAll(s: string, ts: seq<Token>)
    requires Lexes(s, ts)
    ensures Lex(s) == ts
  {
    assert Lex(s + "") == ts + Lex("");
    assert s + "" == s;
  }

  // ----------------------------------------------------------------- meaning

  /** responses.CoggedResponse.AuthzDataPack: may this caller, holding these grants, read the node. */
  predicate MayRead(caller: Caller, grants: set<string>, n: Node) {
    || n.own == Some(caller.uid)
    || caller.IsAdmin()
    || (n.sgi.Some? && n.sgi.value in grants && IsSet(n.bits.r))
  }

  lemma AuthzTreeMeans(uid: string, safe: seq<string>, dg: Tests, n: Node)
    ensures Holds(AuthzTree(uid, safe), dg, n)
       <==> n.own == Some(uid) || (n.sgi.Some? && n.sgi.value in safe && IsSet(n.bits.r))
  {
    if safe != [] {
      var right := Group(And, [SgiIn(safe), CanRead]);
      assert Holds(right, dg, n) <==> Holds(SgiIn(safe), dg, n) && Holds(CanRead, dg, n) by {
        assert right.parts[0] == SgiIn(safe) && right.parts[1] == CanRead;
      }
      var tree := AuthzTree(uid, safe);
      assert tree.parts[0] == OwnedBy(uid) && tree.parts[1] == right;
    }
  }

  function Members(list: seq<string>): set<string> { set s | s in list }

  lemma SanitisedIsWord(uid: string)
    ensures IsWord(SanitiseUID(uid))
  {
    SanitiseIsCanonical(uid);
    var s := SanitiseUID(uid);
    assert s[0] == '0' && s[1] == 'x';
  }

  /** The in-query restriction, as a condition on one node. */
  predicate InQueryReadable(caller: Caller, allowedSgis: seq<string>, n: Node) {
    n.own == Some(SanitiseUID(caller.uid)) || (n.sgi.Some? && n.sgi.value in SafeSgis(allowedSgis) && IsSet(n.bits.r))
  }

  /**
   * The two read filters agree on every node exactly when the caller's uid is canonical and every
   * grant is non-empty base64url text.
   */
  lemma InQueryFilterEqualsResponseFilter(caller: Caller, allowedSgis: seq<string>)
    requires !caller.IsAdmin()
    ensures (forall n :: InQueryReadable(caller, allowedSgis, n) <==> MayRead(caller, Members(allowedSgis), n))
       <==> Canonical(caller.uid) && forall s :: s in allowedSgis ==> SgiChars(s)
  {
    var grants := Members(allowedSgis);
    if forall n :: InQueryReadable(caller, allowedSgis, n) <==> MayRead(caller, grants, n) {
      var mine := Node("0x1", Some(caller.uid), None, NO_BITS, map[], None, []);
      assert InQueryReadable(caller, allowedSgis, mine) <==> MayRead(caller, grants, mine);
      SanitiseFixesExactlyCanonical(caller.uid);
      forall s | s in allowedSgis ensures SgiChars(s) {
        var shared := Node("0x1", None, Some(s), NO_BITS.(r := Some(true)), map[], None, []);
        assert InQueryReadable(caller, allowedSgis, shared) <==> MayRead(caller, grants, shared);
      }
    } else {
      SanitiseFixesExactlyCanonical(caller.uid);
    }
  }
}
