/**
 * The selection of a query, `e {uid ...} ty id` (services/db.go): what `renderFields` sends and which
 * predicates it reads as, of the nodes and of their neighbours.
 */
module Selection {
  import opened Graph
  import opened Text
  import opened Declarations
  import opened FilterCompiler

  const EDGE_FIELDS := " {uid own {uid} sgi r w o i d s}"

  /** One field, as it is sent. */
  function FieldText(f: string): string { if f == "e" then f + EDGE_FIELDS else f }

  function FieldTexts(e: Env, select: seq<string>): seq<string> {
    if select == [] then []
    else
      var last := select[|select| - 1];
      FieldTexts(e, select[..|select| - 1])
      + if last in e.fields then [FieldText(last)] else []
  }

  /** `renderFields`: the allowed fields, edges with what the response layer needs of their targets. */
  method RenderFields(e: Env, select: seq<string>) returns (text: string)
    ensures text == Join(FieldTexts(e, select), " ")
  {
    var tmpV := [];
    for k := 0 to |select|
      invariant tmpV == FieldTexts(e, select[..k])
    {
      assert select[..k + 1][..k] == select[..k];
      if select[k] in e.fields {
        if select[k] == "e" { tmpV := tmpV + [select[k] + EDGE_FIELDS]; } else { tmpV := tmpV + [select[k]]; }
      }
    }
    assert select[..|select|] == select;
    text := "";
    if |tmpV| > 0 {
      if |tmpV| > 1 { text := Join(tmpV, " "); } else { text := tmpV[0]; }
    }
  }

  // --------------------------------------------------------------- reading it back

  /** The names of a selection, each with the number of braces around it. */
  function ReadSelection(text: string): seq<(int, string)> { ReadPieces(Split(text, ' '), 0) }

  function ReadPieces(pieces: seq<string>, depth: int): seq<(int, string)> {
    if pieces == [] then []
    else ReadPiece(pieces[0], depth) + ReadPieces(pieces[1..], depth + Net(pieces[0]))
  }

  function ReadPiece(piece: string, depth: int): seq<(int, string)> {
    if Bare(piece) == "" then [] else [(depth + Count(piece, '{'), Bare(piece))]
  }

  function Net(piece: string): int { Count(piece, '{') - Count(piece, '}') }

  function NetAll(pieces: seq<string>): int {
    if pieces == [] then 0 else Net(pieces[0]) + NetAll(pieces[1..])
  }

  function Count(s: string, c: char): nat {
    if s == "" then 0 else (if s[0] == c then 1 else 0) + Count(s[1..], c)
  }

  /** Without its braces. */
  function Bare(s: string): string {
    if s == "" then "" else (if s[0] == '{' || s[0] == '}' then "" else [s[0]]) + Bare(s[1..])
  }

  lemma ReadCons(p: string, rest: seq<string>, depth: int)
    ensures ReadPieces([p] + rest, depth) == ReadPiece(p, depth) + ReadPieces(rest, depth + Net(p))
    ensures NetAll([p] + rest) == Net(p) + NetAll(rest)
  {
    assert ([p] + rest)[1..] == rest;
  }

  lemma Reassociate<T>(a: seq<T>, b: seq<T>, c: seq<T>)
    ensures a + (b + c) == (a + b) + c
  {
  }

  lemma {:induction false} ReadPlus(a: seq<string>, b: seq<string>, depth: int)
    ensures ReadPieces(a + b, depth) == ReadPieces(a, depth) + ReadPieces(b, depth + NetAll(a))
    ensures NetAll(a + b) == NetAll(a) + NetAll(b)
    decreases |a|
  {
    if a == [] {
      assert a + b == b;
    } else {
      var p, rest := a[0], a[1..];
      ReadPlus(rest, b, depth + Net(p));
      assert a == [p] + rest;
      Reassociate([p], rest, b);
      ReadCons(p, rest + b, depth);
      ReadCons(p, rest, depth);
      Reassociate(ReadPiece(p, depth), ReadPieces(rest, depth + Net(p)), ReadPieces(b, depth + NetAll(a)));
    }
  }

  /** A name without a brace. */
  lemma {:induction false} BareWord(s: string)
    requires '{' !in s && '}' !in s
    ensures Bare(s) == s && Count(s, '{') == 0 && Count(s, '}') == 0
  {
    if s != "" {
      BareWord(s[1..]);
      assert [s[0]] + s[1..] == s;
    }
  }

  predicate PlainField(f: string) { f != "" && ' ' !in f && '{' !in f && '}' !in f }

  lemma OnePiece(p: string, depth: int)
    ensures ReadPieces([p], depth) == ReadPiece(p, depth) && NetAll([p]) == Net(p)
  {
    assert [p][1..] == [];
  }

  /** What is asked of a neighbour: its own uid, its owner's, its group and its permission bits. */
  const NEIGHBOUR: seq<(int, string)> :=
    [(1, "uid"), (1, "own"), (2, "uid"), (1, "sgi"), (1, "r"), (1, "w"), (1, "o"), (1, "i"), (1, "d"), (1, "s")]

  lemma BareOpen(s: string)
    ensures Bare("{" + s) == Bare(s) && Count("{" + s, '{') == 1 + Count(s, '{') && Count("{" + s, '}') == Count(s, '}')
  {
    assert ("{" + s)[1..] == s;
  }

  lemma {:induction false} BareClose(s: string)
    ensures Bare(s + "}") == Bare(s) && Count(s + "}", '{') == Count(s, '{') && Count(s + "}", '}') == 1 + Count(s, '}')
  {
    if s == "" {
      assert s + "}" == "}" && "}"[1..] == "";
    } else {
      BareClose(s[1..]);
      assert (s + "}")[1..] == s[1..] + "}";
    }
  }

  /** A name after an opening brace, before a closing one, and between two. */
  lemma BraceReads(w: string, depth: int)
    requires PlainField(w)
    ensures ReadPiece("{" + w, depth) == [(depth + 1, w)] && Net("{" + w) == 1
    ensures ReadPiece(w + "}", depth) == [(depth, w)] && Net(w + "}") == -1
    ensures ReadPiece("{" + (w + "}"), depth) == [(depth + 1, w)] && Net("{" + (w + "}")) == 0
  {
    BareWord(w);
    BareOpen(w);
    BareClose(w);
    BareOpen(w + "}");
  }

  function ReadText(text: string, depth: int): seq<(int, string)> { ReadPieces(Split(text, ' '), depth) }

  function NetText(text: string): int { NetAll(Split(text, ' ')) }

  /** Reading on after one piece. */
  lemma ReadOn(text: string, piece: string, rest: string, depth: int)
    requires text == piece + " " + rest && ' ' !in piece
    ensures ReadText(text, depth) == ReadPiece(piece, depth) + ReadText(rest, depth + Net(piece))
    ensures NetText(text) == Net(piece) + NetText(rest)
  {
    SplitAt(piece, ' ', rest);
    ReadCons(piece, Split(rest, ' '), depth);
  }

  lemma ReadLast(piece: string, depth: int)
    requires ' ' !in piece
    ensures ReadText(piece, depth) == ReadPiece(piece, depth) && NetText(piece) == Net(piece)
  {
    SplitNone(piece, ' ');
    OnePiece(piece, depth);
  }

  /** Reading on after a name. */
  lemma NameThen(text: string, w: string, rest: string, depth: int)
    requires PlainField(w) && text == w + " " + rest
    ensures ReadText(text, depth) == [(depth, w)] + ReadText(rest, depth) && NetText(text) == NetText(rest)
  {
    BareWord(w);
    ReadOn(text, w, rest, depth);
  }

  lemma OpenThen(text: string, w: string, rest: string, depth: int)
    requires PlainField(w) && text == "{" + w + " " + rest
    ensures ReadText(text, depth) == [(depth + 1, w)] + ReadText(rest, depth + 1) && NetText(text) == 1 + NetText(rest)
  {
    BraceReads(w, depth);
    ReadOn(text, "{" + w, rest, depth);
  }

  lemma NestedThen(text: string, w: string, rest: string, depth: int)
    requires PlainField(w) && text == "{" + (w + "}") + " " + rest
    ensures ReadText(text, depth) == [(depth + 1, w)] + ReadText(rest, depth) && NetText(text) == NetText(rest)
  {
    BraceReads(w, depth);
    ReadOn(text, "{" + (w + "}"), rest, depth);
  }

  lemma CloseLast(text: string, w: string, depth: int)
    requires PlainField(w) && text == w + "}"
    ensures ReadText(text, depth) == [(depth, w)] && NetText(text) == -1
  {
    BraceReads(w, depth);
    ReadLast(text, depth);
  }

  /** Four names and then the last one, closing a brace. */
  lemma LastFive(a: string, b: string, c: string, d: string, last: string, text: string)
    requires PlainField(a) && PlainField(b) && PlainField(c) && PlainField(d) && PlainField(last)
    requires text == a + " " + (b + " " + (c + " " + (d + " " + (last + "}"))))
    ensures ReadText(text, 1) == [(1, a)] + ([(1, b)] + ([(1, c)] + ([(1, d)] + [(1, last)]))) && NetText(text) == -1
  {
    var after := last + "}";
    NameThen(text, a, b + " " + (c + " " + (d + " " + after)), 1);
    NameThen(b + " " + (c + " " + (d + " " + after)), b, c + " " + (d + " " + after), 1);
    NameThen(c + " " + (d + " " + after), c, d + " " + after, 1);
    NameThen(d + " " + after, d, after, 1);
    CloseLast(after, last, 1);
  }

  /** A name, and in braces two names, one in braces of its own, and two more, with text to follow. */
  lemma FirstSix(e: string, a: string, b: string, c: string, d: string, f: string, rest: string, text: string)
    requires PlainField(e) && PlainField(a) && PlainField(b) && PlainField(c) && PlainField(d) && PlainField(f)
    requires text == e + " " + ("{" + a + " " + (b + " " + ("{" + (c + "}") + " " + (d + " " + (f + " " + rest)))))
    ensures ReadText(text, 0)
         == [(0, e)] + ([(1, a)] + ([(1, b)] + ([(2, c)] + ([(1, d)] + ([(1, f)] + ReadText(rest, 1))))))
    ensures NetText(text) == 1 + NetText(rest)
  {
    var t5 := f + " " + rest;
    var t4 := d + " " + t5;
    var t3 := "{" + (c + "}") + " " + t4;
    var t2 := b + " " + t3;
    var t1 := "{" + a + " " + t2;
    NameThen(text, e, t1, 0);
    OpenThen(t1, a, t2, 0);
    NameThen(t2, b, t3, 1);
    NestedThen(t3, c, t4, 1);
    NameThen(t4, d, t5, 1);
    NameThen(t5, f, rest, 1);
  }

  lemma EdgeText(rest: string)
    requires rest == "w" + " " + ("o" + " " + ("i" + " " + ("d" + " " + ("s" + "}"))))
    ensures "e" + EDGE_FIELDS
         == "e" + " "
            + ("{" + "uid" + " " + ("own" + " " + ("{" + ("uid" + "}") + " " + ("sgi" + " " + ("r" + " " + rest)))))
  {
  }

  lemma EdgeNames()
    ensures PlainField("e") && PlainField("uid") && PlainField("own") && PlainField("sgi") && PlainField("r")
    ensures PlainField("w") && PlainField("o") && PlainField("i") && PlainField("d") && PlainField("s")
  {
  }

  lemma RegroupNames<T>(e: T, uid: T, own: T, uid': T, sgi: T, r: T, w: T, o: T, i: T, d: T, s: T)
    ensures [e] + ([uid] + ([own] + ([uid'] + ([sgi] + ([r] + ([w] + ([o] + ([i] + ([d] + [s])))))))))
         == [e] + [uid, own, uid', sgi, r, w, o, i, d, s]
  {
  }

  /** An edge's selection: the edge itself, and of the neighbour all that decides who may read it. */
  lemma EdgeReads()
    ensures ReadText("e" + EDGE_FIELDS, 0) == [(0, "e")] + NEIGHBOUR && NetText("e" + EDGE_FIELDS) == 0
  {
    var rest := "w" + " " + ("o" + " " + ("i" + " " + ("d" + " " + ("s" + "}"))));
    EdgeNames();
    EdgeText(rest);
    LastFive("w", "o", "i", "d", "s", rest);
    FirstSix("e", "uid", "own", "uid", "sgi", "r", rest, "e" + EDGE_FIELDS);
    RegroupNames((0, "e"), (1, "uid"), (1, "own"), (2, "uid"), (1, "sgi"), (1, "r"), (1, "w"), (1, "o"), (1, "i"),
                 (1, "d"), (1, "s"));
  }

  /** What is asked of every node: its own uid, its owner's, its group and its permission bits. */
  const NODE_NAMES: seq<(int, string)> :=
    [(0, "uid"), (0, "own"), (1, "uid"), (0, "sgi"), (0, "r"), (0, "w"), (0, "o"), (0, "i"), (0, "d"), (0, "s")]

  const NODE_FIELDS := "uid own {uid} sgi r w o i d s "

  /** Two names, one in braces of its own, and two more, with text to follow. */
  lemma FirstFive(a: string, b: string, c: string, d: string, f: string, rest: string, text: string)
    requires PlainField(a) && PlainField(b) && PlainField(c) && PlainField(d) && PlainField(f)
    requires text == a + " " + (b + " " + ("{" + (c + "}") + " " + (d + " " + (f + " " + rest))))
    ensures ReadText(text, 0) == [(0, a)] + ([(0, b)] + ([(1, c)] + ([(0, d)] + ([(0, f)] + ReadText(rest, 0)))))
    ensures NetText(text) == NetText(rest)
  {
    var t4 := f + " " + rest;
    var t3 := d + " " + t4;
    var t2 := "{" + (c + "}") + " " + t3;
    var t1 := b + " " + t2;
    NameThen(text, a, t1, 0);
    NameThen(t1, b, t2, 0);
    NestedThen(t2, c, t3, 0);
    NameThen(t3, d, t4, 0);
    NameThen(t4, f, rest, 0);
  }

  /** Five names with text to follow. */
  lemma FiveMore(a: string, b: string, c: string, d: string, f: string, rest: string, text: string)
    requires PlainField(a) && PlainField(b) && PlainField(c) && PlainField(d) && PlainField(f)
    requires text == a + " " + (b + " " + (c + " " + (d + " " + (f + " " + rest))))
    ensures ReadText(text, 0) == [(0, a)] + ([(0, b)] + ([(0, c)] + ([(0, d)] + ([(0, f)] + ReadText(rest, 0)))))
    ensures NetText(text) == NetText(rest)
  {
    var t4 := f + " " + rest;
    var t3 := d + " " + t4;
    var t2 := c + " " + t3;
    var t1 := b + " " + t2;
    NameThen(text, a, t1, 0);
    NameThen(t1, b, t2, 0);
    NameThen(t2, c, t3, 0);
    NameThen(t3, d, t4, 0);
    NameThen(t4, f, rest, 0);
  }

  lemma NodeText(fields: string, rest: string)
    requires rest == "w" + " " + ("o" + " " + ("i" + " " + ("d" + " " + ("s" + " " + fields))))
    ensures NODE_FIELDS + fields
         == "uid" + " " + ("own" + " " + ("{" + ("uid" + "}") + " " + ("sgi" + " " + ("r" + " " + rest))))
  {
  }

  lemma RegroupTen<T>(uid: T, own: T, uid': T, sgi: T, r: T, w: T, o: T, i: T, d: T, s: T, rest: seq<T>)
    ensures [uid] + ([own] + ([uid'] + ([sgi] + ([r] + ([w] + ([o] + ([i] + ([d] + ([s] + rest)))))))))
         == [uid, own, uid', sgi, r, w, o, i, d, s] + rest
  {
  }

  /** Before the fields come the names that every node is asked for. */
  lemma NodeReads(fields: string)
    ensures ReadText(NODE_FIELDS + fields, 0) == NODE_NAMES + ReadText(fields, 0)
  {
    var rest := "w" + " " + ("o" + " " + ("i" + " " + ("d" + " " + ("s" + " " + fields))));
    EdgeNames();
    NodeText(fields, rest);
    FiveMore("w", "o", "i", "d", "s", fields, rest);
    FirstFive("uid", "own", "uid", "sgi", "r", rest, NODE_FIELDS + fields);
    RegroupTen((0, "uid"), (0, "own"), (1, "uid"), (0, "sgi"), (0, "r"), (0, "w"), (0, "o"), (0, "i"), (0, "d"),
               (0, "s"), ReadText(fields, 0));
  }

  // --------------------------------------------------------------- which fields are asked for

  /** The names that a list of wanted fields comes to, in their order. */
  function Chosen(e: Env, select: seq<string>): seq<(int, string)> {
    if select == [] then []
    else
      var last := select[|select| - 1];
      Chosen(e, select[..|select| - 1])
      + if last in e.fields then FieldNames(last) else []
  }

  /** One field, and of a neighbour what is asked with it. */
  function FieldNames(f: string): seq<(int, string)> { [(0, f)] + if f == "e" then NEIGHBOUR else [] }

  /** Names of the language have no space and no brace. */
  predicate PlainFields(e: Env) { forall f :: f in e.fields ==> PlainField(f) }

  lemma JoinSnoc(parts: seq<string>, part: string)
    ensures parts != [] ==> Join(parts + [part], " ") == Join(parts, " ") + [' '] + part
    ensures parts == [] ==> Join(parts + [part], " ") == part
  {
    if parts != [] { JoinAppend(parts, [part], " "); }
  }

  lemma ReadAround(left: string, right: string)
    requires NetText(left) == 0
    ensures ReadText(left + [' '] + right, 0) == ReadText(left, 0) + ReadText(right, 0)
    ensures NetText(left + [' '] + right) == NetText(right)
  {
    SplitAround(left, ' ', right);
    ReadPlus(Split(left, ' '), Split(right, ' '), 0);
  }

  lemma FieldReads(f: string)
    requires PlainField(f)
    ensures ReadText(FieldText(f), 0) == FieldNames(f) && NetText(FieldText(f)) == 0
  {
    if f == "e" {
      EdgeReads();
    } else {
      BareWord(f);
      ReadLast(f, 0);
    }
  }

  lemma FieldTextsSnoc(e: Env, select: seq<string>, f: string)
    ensures FieldTexts(e, select + [f]) == FieldTexts(e, select) + (if f in e.fields then [FieldText(f)] else [])
    ensures Chosen(e, select + [f]) == Chosen(e, select) + (if f in e.fields then FieldNames(f) else [])
  {
    assert (select + [f])[..|select|] == select;
  }

  /** The selection reads as the allowed fields, each once for each time it was asked for. */
  lemma {:induction false} SelectionReads(e: Env, select: seq<string>)
    requires PlainFields(e)
    ensures ReadText(Join(FieldTexts(e, select), " "), 0) == Chosen(e, select)
    ensures NetText(Join(FieldTexts(e, select), " ")) == 0
  {
    if select == [] {
      EmptyReads();
    } else {
      var front, f := select[..|select| - 1], select[|select| - 1];
      assert select == front + [f];
      SelectionReads(e, front);
      FieldTextsSnoc(e, front, f);
      EmptyReads();
      if f in e.fields {
        FieldReads(f);
        ReadSnoc(FieldTexts(e, front), FieldText(f));
      } else {
        assert FieldTexts(e, front) + [] == FieldTexts(e, front);
      }
    }
  }

  lemma ReadSnoc(texts: seq<string>, text: string)
    requires NetText(Join(texts, " ")) == 0
    ensures ReadText(Join(texts + [text], " "), 0) == ReadText(Join(texts, " "), 0) + ReadText(text, 0)
    ensures NetText(Join(texts + [text], " ")) == NetText(text)
  {
    JoinSnoc(texts, text);
    EmptyReads();
    if texts != [] { ReadAround(Join(texts, " "), text); }
  }

  lemma EmptyReads()
    ensures ReadText("", 0) == [] && NetText("") == 0
  {
    ReadLast("", 0);
  }

  lemma {:induction false} ChosenExactly(e: Env, select: seq<string>, depth: int, name: string)
    ensures (depth, name) in Chosen(e, select)
       <==> (depth == 0 && name in select && name in e.fields)
            || ("e" in select && "e" in e.fields && (depth, name) in NEIGHBOUR)
  {
    if select != [] {
      var front, f := select[..|select| - 1], select[|select| - 1];
      assert select == front + [f];
      ChosenExactly(e, front, depth, name);
      FieldTextsSnoc(e, front, f);
    }
  }

  /**
   * What the selection sent asks of a node and of its neighbours: of a node all that decides who may read it and
   * the allowed fields that were asked for, and of a neighbour, if edges are among them, what decides who may
   * read that.
   */
  lemma SelectionExactly(e: Env, select: seq<string>, depth: int, name: string)
    requires PlainFields(e)
    ensures (depth, name) in ReadSelection(NODE_FIELDS + Join(FieldTexts(e, select), " "))
       <==> || (depth, name) in NODE_NAMES
            || (depth == 0 && name in select && name in e.fields)
            || ("e" in select && "e" in e.fields && (depth, name) in NEIGHBOUR)
  {
    SelectionReads(e, select);
    ChosenExactly(e, select, depth, name);
    NodeReads(Join(FieldTexts(e, select), " "));
  }
}
