/**
 * What a request's query text says: each fragment stands in its place exactly if no usable share group's
 * id holds one of the last two markers, and every variable that is declared is also used.
 */
module QueryTheorems {
  import opened Graph
  import opened Text
  import opened Uid
  import opened FilterCompiler
  import opened Dql
  import opened ReadFilter
  import opened Query
  import opened QueryText
  import opened QueryParts
  import opened QuerySent
  import opened Selection
  import Declarations
  import FilterTheorems
  import QueryParams

  // ---------------------------------------------------------------- markers in the filter

  lemma QuotedAbsent(m: string, sgi: string)
    requires IsMarker(m)
    ensures Absent(m, "\"" + sgi + "\"") <==> Absent(m, sgi)
  {
    assert Quiet("\"");
    QuietIsClear("\"", m);
    AbsentSeam("\"", sgi, m);
    AbsentSeam("\"" + sgi, "\"", m);
  }

  lemma {:induction false} QuotedListAbsent(m: string, safe: seq<string>)
    requires IsMarker(m)
    ensures Absent(m, Join(Quote(safe), ", ")) <==> forall s :: s in safe ==> Absent(m, s)
  {
    if safe != [] {
      QuotedAbsent(m, safe[0]);
      if |safe| > 1 {
        assert Quiet(", ");
        QuietIsClear(", ", m);
        QuotedListAbsent(m, safe[1..]);
        assert Quote(safe)[1..] == Quote(safe[1..]);
        AbsentSeam(Quote(safe)[0], ", ", m);
        AbsentSeam(Quote(safe)[0] + ", ", Join(Quote(safe[1..]), ", "), m);
        assert safe == [safe[0]] + safe[1..];
      }
    }
  }

  const SGI_OPEN := "(eq(sgi, ["
  const SGI_CLOSE := "]) AND eq(r, true))"
  const OWN_OPEN := "uid_in(own, "
  const OR_TEXT := " OR "
  const AND_AUTHZ := ") AND "

  lemma AuthzWordsAreQuiet()
    ensures Quiet(SGI_OPEN) && Quiet(SGI_CLOSE) && Quiet(OWN_OPEN) && Quiet(OR_TEXT) && Quiet(AND_AUTHZ)
    ensures Quiet("(") && Quiet(")")
  {
  }

  /** Quiet text on either side changes nothing. */
  lemma AbsentBetween(m: string, a: string, s: string, b: string)
    requires IsMarker(m) && Quiet(a) && Quiet(b)
    ensures Absent(m, a + s + b) <==> Absent(m, s)
  {
    QuietIsClear(a, m);
    QuietIsClear(b, m);
    AbsentSeam(a, s, m);
    AbsentSeam(a + s, b, m);
  }

  lemma OwnIsQuiet(uid: string)
    requires Plain(uid)
    ensures Quiet(OwnText(uid))
  {
    AuthzWordsAreQuiet();
    PlainIsQuiet(uid);
    QuietJoin(OWN_OPEN, uid);
    QuietJoin(OWN_OPEN + uid, ")");
  }

  lemma AuthzAbsent(m: string, uid: string, safe: seq<string>)
    requires IsMarker(m) && Plain(uid)
    ensures Absent(m, AuthzText(uid, safe)) <==> forall s :: s in safe ==> Absent(m, s)
  {
    AuthzWordsAreQuiet();
    OwnIsQuiet(uid);
    if safe == [] {
      QuietIsClear(OwnText(uid), m);
    } else {
      QuotedListAbsent(m, safe);
      AbsentBetween(m, SGI_OPEN, Join(Quote(safe), ", "), SGI_CLOSE);
      QuietJoin("(", OwnText(uid));
      QuietJoin("(" + OwnText(uid), OR_TEXT);
      AbsentBetween(m, "(" + OwnText(uid) + OR_TEXT, SgiText(safe), ")");
    }
  }

  /** A marker is in the final filter exactly if it is in a share group that the filter names. */
  lemma FilterAbsent(m: string, user: string, uid: string, safe: seq<string>)
    requires IsMarker(m) && Plain(user) && Plain(uid)
    ensures Absent(m, user)
    ensures Absent(m, RestrictedText(user, AuthzText(uid, safe))) <==> forall s :: s in safe ==> Absent(m, s)
  {
    AuthzWordsAreQuiet();
    PlainIsQuiet(user);
    QuietIsClear(user, m);
    QuietJoin("(", user);
    QuietJoin("(" + user, AND_AUTHZ);
    AuthzAbsent(m, uid, safe);
    assert Quiet("");
    var authz := AuthzText(uid, safe);
    AbsentBetween(m, "(" + user + AND_AUTHZ, authz, "");
    assert "(" + user + AND_AUTHZ + authz + "" == RestrictedText(user, authz);
  }

  /** No marker that is replaced after the filter is part of the text. */
  predicate Innocent(s: string) { Absent(PAGEARGS, s) && Absent(QVARS, s) }

  /** The filter of the request names no share group with such a marker. */
  predicate GroupsInnocent(et: EdgeType, uad: Option<Caller>, allowedSgis: seq<string>) {
    Restricted(et, uad) ==> forall s :: s in allowedSgis && SgiChars(s) ==> Innocent(s)
  }

  lemma FilterTextAbsent(e: Env, q: Request, et: EdgeType, uad: Option<Caller>, allowedSgis: seq<string>)
    requires EnvTidy(e) && GeoClausesValid(EffectiveFilter(e, q))
    ensures Innocent(FilterText(e, q, et, uad, allowedSgis)) <==> GroupsInnocent(et, uad, allowedSgis)
  {
    var user := Print(Lower(e, EffectiveFilter(e, q)));
    CompiledIsPlain(e, EffectiveFilter(e, q));
    MarkersAreMarkers();
    if Restricted(et, uad) {
      var uid, safe := SanitiseUID(uad.value.uid), SafeSgis(allowedSgis);
      SanitiseIsCanonical(uad.value.uid);
      CanonicalIsPlain(uid);
      FilterAbsent(PAGEARGS, user, uid, safe);
      FilterAbsent(QVARS, user, uid, safe);
    } else {
      FilterAbsent(PAGEARGS, user, "", []);
      FilterAbsent(QVARS, user, "", []);
    }
  }

  // -------------------------------------------------------------------- the text sent

  lemma VectorIsQuiet(s: string)
    requires VectorText(s)
    ensures Quiet(s)
  {
  }

  lemma FieldIsPlain(e: Env, field: string)
    requires EnvTidy(e)
    ensures Plain(RenderField(e, field))
  {
  }

  lemma PageIsPlain(e: Env, q: Request)
    requires EnvTidy(e)
    ensures PlainPage(PageOf(e, q))
  {
    if q.orderBy.Some? { FieldIsPlain(e, q.orderBy.value); }
    if q.after.Some? {
      SanitiseIsCanonical(q.after.value);
      CanonicalIsPlain(SanitiseUID(q.after.value));
    }
  }

  lemma RootIsQuiet(e: Env, q: Request, et: EdgeType, root: Root)
    requires EnvTidy(e) && RootOf(e, q, et) == Accepted(root)
    requires q.rootQuery.Some? ==> GeoClausesValid(q.rootQuery.value)
    ensures RootQuiet(root)
  {
    match root
    case Nearest(vector, _) => VectorIsQuiet(vector);
    case InRadius(geo) =>
      DecimalHasNoMarker(geo.lon);
      DecimalHasNoMarker(geo.lat);
      DecimalHasNoMarker(geo.distance);
      PlainPrint(Near(geo));
    case Found(text) =>
      RootChoice(e, q, et, root);
      CompiledIsPlain(e, q.rootQuery.value);
    case _ =>
  }

  lemma BuiltIsTidy(e: Env, q: Request, et: EdgeType, uad: Option<Caller>, allowedSgis: seq<string>, b: Built)
    requires EnvTidy(e) && Build(e, q, et, uad, allowedSgis) == Accepted(b)
    ensures Tidy(b)
  {
    PartsOfBuilt(e, q, et, uad, allowedSgis, b);
    CheckedClausesAreValid(e, q, uad);
    RootIsQuiet(e, q, et, b.root);
    PageIsPlain(e, q);
  }

  lemma SameAround(a: string, f: string, g: string, b: string)
    ensures a + f + b == a + g + b <==> f == g
  {
    if a + f + b == a + g + b {
      assert |f| == |g|;
      assert f == (a + f + b)[|a|..|a| + |f|] && g == (a + g + b)[|a|..|a| + |g|];
    }
  }

  /** Two texts that differ at most in their filter are the same exactly if the filters are. */
  lemma SameFilter(e: Env, b: Built, filter: string, order: seq<string>)
    ensures QueryFor(e, b.(filter := filter), order) == QueryFor(e, b, order) <==> filter == b.filter
  {
    var params, start, page := ParamList(b.root, order), StartText(b.root), PageArgs(b.page);
    var fields := Join(FieldTexts(e, b.fields), " ");
    AroundFilter(b.root, params, start, page, filter, fields);
    AroundFilter(b.root, params, start, page, b.filter, fields);
    SameAround(Front(b.root, params, start, page), filter, b.filter, Rear(fields));
  }

  lemma MarkersLack()
    ensures ',' !in PAGEARGS && ',' !in QVARS && '$' !in PAGEARGS && '$' !in QVARS
  {
  }

  /** The last two calls leave the filter alone exactly if neither marker is in it. */
  lemma FilterIsLeftAlone(b: Built, order: seq<string>)
    requires Tidy(b)
    ensures AfterLastCalls(b.filter, PageArgs(b.page), ParamList(b.root, order)) == b.filter
       <==> Absent(PAGEARGS, b.filter) && Absent(QVARS, b.filter)
  {
    PageArgsFit(b.page);
    ParamListTells(b.root, order);
    MarkersAreMarkers();
    MarkersLack();
    TwiceUnchanged(b.filter, PAGEARGS, PageArgs(b.page), ',', QVARS, ParamList(b.root, order), '$');
  }

  /**
   * `QueryWithOptions` up to the call of Dgraph, for any order in which the variable map is iterated. The
   * text it sends is the template with every fragment in its place exactly if the filter names no share
   * group whose id holds `__PAGEARGS__` or `__QVARS__`.
   */
  method QueryWithOptions(e: Env, q: Request, et: EdgeType, uad: Option<Caller>, allowedSgis: seq<string>,
                          iterate: map<string, string> -> seq<string>)
      returns (r: Result<(string, map<string, string>)>, ghost b: Option<Built>)
    requires EnvTidy(e)
    ensures r.Refused? ==> Build(e, q, et, uad, allowedSgis) == Refused(r.reason) && b.None?
    ensures r.Accepted? ==>
      b.Some? && Build(e, q, et, uad, allowedSgis) == Accepted(b.value) && r.value.1 == b.value.vars
    ensures r.Accepted? ==>
      (r.value.0 == QueryFor(e, b.value, iterate(b.value.vars)) <==> GroupsInnocent(et, uad, allowedSgis))
  {
    var parts := Query.QueryWithOptions(e, q, et, uad, allowedSgis);
    if parts.Refused? { return Refused(parts.reason), None; }
    var built := parts.value;
    BuiltIsTidy(e, q, et, uad, allowedSgis, built);
    var order := iterate(built.vars);
    var text := RenderQuery(e, built, order);
    PartsOfBuilt(e, q, et, uad, allowedSgis, built);
    CheckedClausesAreValid(e, q, uad);
    FilterTextAbsent(e, q, et, uad, allowedSgis);
    FilterIsLeftAlone(built, order);
    SameFilter(e, built, AfterLastCalls(built.filter, PageArgs(built.page), ParamList(built.root, order)), order);
    return Accepted((text, built.vars)), Some(built);
  }

  /** Such an id passes the test that is meant to keep group ids harmless. */
  lemma MarkerPassesAsGroup()
    ensures SgiChars(PAGEARGS) && !Innocent(PAGEARGS) && SgiChars(QVARS) && !Innocent(QVARS)
  {
    MarkersAreInCharset();
    OccursInItself(PAGEARGS);
    OccursInItself(QVARS);
  }

  lemma OccursInItself(m: string)
    requires m != ""
    ensures !Absent(m, m)
  {
    assert OccursAt(m, m, 0);
  }

  lemma MarkersAreInCharset()
    ensures SgiChars(PAGEARGS) && SgiChars(QVARS)
  {
  }

  // ------------------------------------------------------------------ the order of the calls

  function MarkerAt(root: Root, k: nat): string {
    if k == 0 then StartMarker(root)
    else if k == 1 then FIELDS
    else if k == 2 then FILTERS
    else if k == 3 then PAGEARGS
    else QVARS
  }

  function FragmentAt(e: Env, b: Built, order: seq<string>, k: nat): string {
    if k == 0 then StartText(b.root)
    else if k == 1 then Join(FieldTexts(e, b.fields), " ")
    else if k == 2 then b.filter
    else if k == 3 then PageArgs(b.page)
    else ParamList(b.root, order)
  }

  function Calls(e: Env, b: Built, order: seq<string>): (calls: seq<Call>)
    ensures |calls| == 5
    ensures forall k :: 0 <= k < 5 ==> calls[k] == (MarkerAt(b.root, k), FragmentAt(e, b, order, k))
  {
    seq(5, k requires 0 <= k < 5 => (MarkerAt(b.root, k), FragmentAt(e, b, order, k)))
  }

  predicate QuietCall(c: Call) { IsMarker(c.0) && Quiet(c.1) }

  lemma MarkersOfCalls(root: Root, k: nat)
    ensures IsMarker(MarkerAt(root, k))
  {
    MarkerOrQuiet(MarkerAt(root, k));
  }

  lemma FragmentsAreQuiet(e: Env, b: Built, order: seq<string>, k: nat)
    requires EnvTidy(e) && Tidy(b) && Quiet(b.filter) && Quiet(ParamList(b.root, order))
    ensures Quiet(FragmentAt(e, b, order, k))
  {
    StartIsQuiet(b.root);
    FieldsAreQuiet(e, b.fields);
    PageArgsAreQuiet(b.page);
    OneOfFive(StartText(b.root), Join(FieldTexts(e, b.fields), " "), b.filter, PageArgs(b.page),
              ParamList(b.root, order), k);
  }

  lemma OneOfFive(a: string, b: string, c: string, d: string, e: string, k: nat)
    requires Quiet(a) && Quiet(b) && Quiet(c) && Quiet(d) && Quiet(e)
    ensures Quiet(if k == 0 then a else if k == 1 then b else if k == 2 then c else if k == 3 then d else e)
  {
  }

  lemma FieldsAreQuiet(e: Env, select: seq<string>)
    requires EnvTidy(e)
    ensures Quiet(Join(FieldTexts(e, select), " "))
  {
    FieldsArePlain(e, select);
    PlainIsQuiet(Join(FieldTexts(e, select), " "));
  }

  lemma PageArgsAreQuiet(p: Page)
    requires PlainPage(p)
    ensures Quiet(PageArgs(p))
  {
    PageArgsFit(p);
    PlainIsQuiet(PageArgs(p));
  }

  lemma CallsAreQuiet(e: Env, b: Built, order: seq<string>, k: nat)
    requires EnvTidy(e) && Tidy(b) && Quiet(b.filter) && Quiet(ParamList(b.root, order)) && k < 5
    ensures QuietCall(Calls(e, b, order)[k])
  {
    MarkersOfCalls(b.root, k);
    FragmentsAreQuiet(e, b, order, k);
  }

  /** Two letters tell the five markers of a template apart. */
  function Key(m: string): nat
    requires |m| > 4
  {
    if m[2] == 'F' then if m[4] == 'E' then 1 else 2 else if m[2] == 'P' then 3 else if m[2] == 'Q' then 4 else 0
  }

  lemma KeysOfMarkers()
    ensures |ROOTQUERY| > 4 && |EDGETYPE| > 4 && |FIELDS| > 4 && |FILTERS| > 4 && |PAGEARGS| > 4 && |QVARS| > 4
    ensures Key(ROOTQUERY) == Key(EDGETYPE) == 0 && Key(FIELDS) == 1 && Key(FILTERS) == 2
    ensures Key(PAGEARGS) == 3 && Key(QVARS) == 4
  {
    MarkersDiffer();
  }

  lemma KeyOfCall(root: Root, k: nat)
    requires k < 5
    ensures |MarkerAt(root, k)| > 4 && Key(MarkerAt(root, k)) == k
  {
    KeysOfMarkers();
  }

  /** The calls are these five, in some order, perhaps repeated. */
  predicate SameCalls(calls: seq<Call>, all: seq<Call>) {
    (forall k :: 0 <= k < |calls| ==> calls[k] in all) && forall k :: 0 <= k < |all| ==> all[k] in calls
  }

  lemma FillsMarker(e: Env, b: Built, order: seq<string>, calls: seq<Call>, k: nat)
    requires k < 5 && SameCalls(calls, Calls(e, b, order))
    ensures Filling(Calls(e, b, order)[k].0, calls) == Calls(e, b, order)[k].1
  {
    var all := Calls(e, b, order);
    forall c | c in calls && c.0 == all[k].0 ensures c.1 == all[k].1 {
      var i :| 0 <= i < |calls| && calls[i] == c;
      var j :| 0 <= j < |all| && all[j] == c;
      KeyOfCall(b.root, j);
      KeyOfCall(b.root, k);
    }
    FillingIs(all[k].0, calls, all[k].1);
  }

  lemma QuietStaysAsItIs(piece: string, calls: seq<Call>)
    requires Quiet(piece) && Markers(calls)
    ensures ClearOfAll(piece, calls) && Filling(piece, calls) == piece
  {
    forall k | 0 <= k < |calls| ensures Clear(piece, calls[k].0) { QuietIsClear(piece, calls[k].0); }
    FillingIsStable(piece, calls);
  }

  /** A piece of the template and what stands in its place: the same quiet text, or a call's marker and fragment. */
  predicate IsFilledBy(piece: string, filled: string, all: seq<Call>) {
    (Quiet(piece) && filled == piece) || (piece, filled) in all
  }

  predicate AllMatch(pieces: seq<string>, filled: seq<string>, all: seq<Call>) {
    |pieces| == |filled| && forall i :: 0 <= i < |pieces| ==> IsFilledBy(pieces[i], filled[i], all)
  }

  lemma MatchJoin(a: seq<string>, fa: seq<string>, b: seq<string>, fb: seq<string>, all: seq<Call>)
    requires AllMatch(a, fa, all) && AllMatch(b, fb, all)
    ensures AllMatch(a + b, fa + fb, all)
  {
  }

  lemma MiddleMatches(root: Root, m: string, start: string, all: seq<Call>)
    requires RootQuiet(root) && (m, start) in all
    ensures AllMatch(Middle(root, m), Middle(root, start), all)
  {
    match root
    case Nearest(vector, topK) =>
      SimilarIsQuiet(topK, vector);
      StartsAreQuiet();
    case InRadius(geo) =>
      StartsAreQuiet();
      PlainIsQuiet(Print(Near(geo)));
    case Found(_) => StartsAreQuiet();
    case Reached(_, _, _) =>
      RecurseIsQuiet();
      RecurseEndIsQuiet();
    case Listed(_) =>
      StartsAreQuiet();
      RecurseIsQuiet();
  }

  lemma TailMatches(filter: string, fields: string, all: seq<Call>)
    requires (FILTERS, filter) in all && (FIELDS, fields) in all
    ensures AllMatch(Tail(FILTERS, FIELDS), Tail(filter, fields), all)
  {
    FilterOpenIsQuiet();
    FilterCloseIsQuiet();
  }

  lemma HeadMatches(root: Root, params: string, m: string, start: string, page: string, all: seq<Call>)
    requires RootQuiet(root) && (m, start) in all && (QVARS, params) in all && (PAGEARGS, page) in all
    ensures AllMatch(Head(root, QVARS, m, PAGEARGS), Head(root, params, start, page), all)
  {
    EndsAreQuiet();
    MiddleMatches(root, m, start, all);
    MatchJoin([Opening(root), QVARS], [Opening(root), params], Middle(root, m), Middle(root, start), all);
    MatchJoin([Opening(root), QVARS] + Middle(root, m), [Opening(root), params] + Middle(root, start),
              [PAGEARGS, Closing(root)], [page, Closing(root)], all);
  }

  lemma FilledAsMatched(e: Env, b: Built, order: seq<string>, calls: seq<Call>, pieces: seq<string>,
                        filled: seq<string>)
    requires SameCalls(calls, Calls(e, b, order)) && forall k :: 0 <= k < |calls| ==> QuietCall(calls[k])
    requires AllMatch(pieces, filled, Calls(e, b, order))
    ensures Template(pieces, calls) && FilledIn(pieces, calls) == filled
  {
    var all := Calls(e, b, order);
    forall i | 0 <= i < |pieces|
      ensures IsMarker(pieces[i]) || ClearOfAll(pieces[i], calls)
      ensures Filling(pieces[i], calls) == filled[i]
    {
      if Quiet(pieces[i]) && filled[i] == pieces[i] {
        QuietStaysAsItIs(pieces[i], calls);
      } else {
        var k :| 0 <= k < |all| && all[k] == (pieces[i], filled[i]);
        FillsMarker(e, b, order, calls, k);
        assert all[k] in calls;
        var l :| 0 <= l < |calls| && calls[l] == all[k];
        assert QuietCall(calls[l]);
      }
    }
  }

  lemma AllCallsQuiet(e: Env, b: Built, order: seq<string>, calls: seq<Call>)
    requires EnvTidy(e) && Tidy(b) && Quiet(b.filter) && Quiet(ParamList(b.root, order))
    requires SameCalls(calls, Calls(e, b, order))
    ensures (forall k :: 0 <= k < |calls| ==> QuietCall(calls[k])) && FragmentsClear(calls)
  {
    var all := Calls(e, b, order);
    forall i | 0 <= i < |calls| ensures QuietCall(calls[i]) {
      var k :| 0 <= k < |all| && all[k] == calls[i];
      CallsAreQuiet(e, b, order, k);
    }
    forall j, k | 0 <= j < k < |calls| ensures Clear(calls[j].1, calls[k].0) {
      assert QuietCall(calls[j]) && QuietCall(calls[k]);
      QuietIsClear(calls[j].1, calls[k].0);
    }
  }

  function Unfilled(root: Root): seq<string> { Head(root, QVARS, StartMarker(root), PAGEARGS) + Tail(FILTERS, FIELDS) }

  function FilledPieces(e: Env, b: Built, order: seq<string>): seq<string> {
    Head(b.root, ParamList(b.root, order), StartText(b.root), PageArgs(b.page))
    + Tail(b.filter, Join(FieldTexts(e, b.fields), " "))
  }

  lemma TemplateMatches(e: Env, b: Built, order: seq<string>)
    requires RootQuiet(b.root)
    ensures AllMatch(Unfilled(b.root), FilledPieces(e, b, order), Calls(e, b, order))
  {
    var all := Calls(e, b, order);
    var fields, params, page := Join(FieldTexts(e, b.fields), " "), ParamList(b.root, order), PageArgs(b.page);
    assert all[0] == (StartMarker(b.root), StartText(b.root)) && all[1] == (FIELDS, fields);
    assert all[2] == (FILTERS, b.filter) && all[3] == (PAGEARGS, page) && all[4] == (QVARS, params);
    HeadMatches(b.root, params, StartMarker(b.root), StartText(b.root), page, all);
    TailMatches(b.filter, fields, all);
    MatchJoin(Head(b.root, QVARS, StartMarker(b.root), PAGEARGS), Head(b.root, params, StartText(b.root), page),
              Tail(FILTERS, FIELDS), Tail(b.filter, fields), all);
  }

  /**
   * Where no fragment holds two underscores in a row, the calls could as well be made in any other order,
   * and any of them twice.
   */
  lemma AnyOrderWillDo(e: Env, b: Built, order: seq<string>, calls: seq<Call>)
    requires EnvTidy(e) && Tidy(b) && Quiet(b.filter) && Quiet(ParamList(b.root, order))
    requires SameCalls(calls, Calls(e, b, order))
    ensures Markers(calls)
    ensures Chain(Cat(Unfilled(b.root)), calls) == QueryFor(e, b, order)
  {
    AllCallsQuiet(e, b, order, calls);
    TemplateMatches(e, b, order);
    FilledAsMatched(e, b, order, calls, Unfilled(b.root), FilledPieces(e, b, order));
    ChainIsSimultaneous(Unfilled(b.root), calls);
  }

  lemma QuietQuote(sgi: string)
    requires NoDoubleUnderscore(sgi)
    ensures Quiet("\"" + sgi + "\"")
  {
    var q := "\"" + sgi + "\"";
    forall i | 0 <= i < |q| - 1 ensures q[i] != '_' || q[i + 1] != '_' {
      if 0 < i < |sgi| { assert q[i] == sgi[i - 1] && q[i + 1] == sgi[i]; }
    }
  }

  lemma {:induction false} QuietQuotes(safe: seq<string>)
    requires forall s :: s in safe ==> NoDoubleUnderscore(s)
    ensures Quiet(Join(Quote(safe), ", "))
  {
    if safe != [] {
      QuietQuote(safe[0]);
      if |safe| > 1 {
        QuietQuotes(safe[1..]);
        assert Quote(safe)[1..] == Quote(safe[1..]);
        assert Quiet(", ");
        QuietJoin(Quote(safe)[0], ", ");
        QuietJoin(Quote(safe)[0] + ", ", Join(Quote(safe[1..]), ", "));
      }
    }
  }

  predicate NoDoubleUnderscore(s: string) { forall i :: 0 <= i < |s| - 1 ==> s[i] != '_' || s[i + 1] != '_' }

  lemma QuietSgiText(safe: seq<string>)
    requires forall s :: s in safe ==> NoDoubleUnderscore(s)
    ensures Quiet(SgiText(safe))
  {
    AuthzWordsAreQuiet();
    QuietQuotes(safe);
    QuietJoin(SGI_OPEN, Join(Quote(safe), ", "));
    QuietJoin(SGI_OPEN + Join(Quote(safe), ", "), SGI_CLOSE);
  }

  lemma QuietAuthz(uid: string, safe: seq<string>)
    requires Plain(uid) && forall s :: s in safe ==> NoDoubleUnderscore(s)
    ensures Quiet(AuthzText(uid, safe))
  {
    OwnIsQuiet(uid);
    if safe != [] {
      AuthzWordsAreQuiet();
      QuietSgiText(safe);
      QuietJoin("(", OwnText(uid));
      QuietJoin("(" + OwnText(uid), OR_TEXT);
      QuietJoin("(" + OwnText(uid) + OR_TEXT, SgiText(safe));
      QuietJoin("(" + OwnText(uid) + OR_TEXT + SgiText(safe), ")");
    }
  }

  /** No share group in the filter has two underscores in a row. */
  predicate GroupsQuiet(et: EdgeType, uad: Option<Caller>, allowedSgis: seq<string>) {
    Restricted(et, uad) ==> forall s :: s in allowedSgis && SgiChars(s) ==> NoDoubleUnderscore(s)
  }

  lemma QuietFilterText(e: Env, q: Request, et: EdgeType, uad: Option<Caller>, allowedSgis: seq<string>)
    requires EnvTidy(e) && GeoClausesValid(EffectiveFilter(e, q)) && GroupsQuiet(et, uad, allowedSgis)
    ensures Quiet(FilterText(e, q, et, uad, allowedSgis))
  {
    var user := Print(Lower(e, EffectiveFilter(e, q)));
    CompiledIsPlain(e, EffectiveFilter(e, q));
    PlainIsQuiet(user);
    if Restricted(et, uad) {
      var uid, safe := SanitiseUID(uad.value.uid), SafeSgis(allowedSgis);
      SanitiseIsCanonical(uad.value.uid);
      CanonicalIsPlain(uid);
      QuietAuthz(uid, safe);
      AuthzWordsAreQuiet();
      QuietJoin("(", user);
      QuietJoin("(" + user, AND_AUTHZ);
      QuietJoin("(" + user + AND_AUTHZ, AuthzText(uid, safe));
    }
  }

  lemma BindingNamesArePlain(e: Env, c: Clause)
    requires EnvTidy(e)
    ensures forall v :: v in QueryParams.BoundNames(Bindings(Lower(e, c))) ==> Plain(v)
  {
    FilterTheorems.BindingsAreLeaves(e, c);
    var leaves := FilterTheorems.Leaves(c);
    forall i | 0 <= i < |leaves| ensures Plain(FilterTheorems.LeafBindings(e, leaves)[i].0) {
      assert Plain(e.digest(LeafValue(e, leaves[i])));
    }
  }

  lemma VarsArePlain(e: Env, q: Request, et: EdgeType, uad: Option<Caller>, allowedSgis: seq<string>, b: Built)
    requires EnvTidy(e) && Build(e, q, et, uad, allowedSgis) == Accepted(b)
    ensures forall v :: v in b.vars && QueryParams.IsValueVar(v) ==> Plain(v)
  {
    PartsOfBuilt(e, q, et, uad, allowedSgis, b);
    BindingNamesArePlain(e, EffectiveFilter(e, q));
    if q.rootQuery.Some? { BindingNamesArePlain(e, q.rootQuery.value); }
    QueryParams.BindKeys(FixedVars(b.root), RequestBindings(e, q));
    QueryParams.FixedAreNotValues();
  }

  lemma DeclWordsArePlain()
    ensures Plain(IDS) && Plain(RDEPTH) && Plain(QueryParams.STRING_KIND) && Plain(QueryParams.INT_KIND)
    ensures Plain(": ") && Plain(QueryParams.STRING_DECL) && Plain(", ")
  {
  }

  lemma ParamListIsPlain(root: Root, order: seq<string>)
    requires forall v :: v in order && QueryParams.IsValueVar(v) ==> Plain(v)
    ensures Plain(ParamList(root, order))
  {
    DeclWordsArePlain();
    var fixed, names := Declarations.ShowAll(QueryParams.FixedDecls(root)), QueryParams.ValueVars(order);
    forall i | 0 <= i < |names| ensures Plain(QueryParams.Declare(names)[i]) { assert names[i] in names; }
    FixedShowPlain(root);
    AllPlainPlus(fixed, QueryParams.Declare(names));
    PlainJoin(fixed + QueryParams.Declare(names), ", ");
  }

  lemma FixedShowPlain(root: Root)
    ensures AllPlain(Declarations.ShowAll(QueryParams.FixedDecls(root)))
  {
    DeclWordsArePlain();
    var ds := QueryParams.FixedDecls(root);
    forall i | 0 <= i < |ds| ensures Plain(Declarations.ShowAll(ds)[i]) {
      assert Plain(ds[i].name) && Plain(ds[i].kind);
    }
  }

  /** The same of every accepted request whose filter names no group with two underscores in a row. */
  lemma AnyOrderOfRequest(e: Env, q: Request, et: EdgeType, uad: Option<Caller>, allowedSgis: seq<string>, b: Built,
                          order: seq<string>, calls: seq<Call>)
    requires EnvTidy(e) && Build(e, q, et, uad, allowedSgis) == Accepted(b) && GroupsQuiet(et, uad, allowedSgis)
    requires QueryParams.Enumerates(order, b.vars) && SameCalls(calls, Calls(e, b, order))
    ensures Markers(calls)
    ensures Chain(Cat(Unfilled(b.root)), calls) == QueryFor(e, b, order)
  {
    PartsOfBuilt(e, q, et, uad, allowedSgis, b);
    CheckedClausesAreValid(e, q, uad);
    BuiltIsTidy(e, q, et, uad, allowedSgis, b);
    QuietFilterText(e, q, et, uad, allowedSgis);
    VarsArePlain(e, q, et, uad, allowedSgis, b);
    ParamListIsPlain(b.root, order);
    PlainIsQuiet(ParamList(b.root, order));
    AnyOrderWillDo(e, b, order, calls);
  }

  // ------------------------------------------------------------------- variables in the text

  /** The word stands here, with something on either side that ends words. */
  predicate HasWordAt(text: string, v: string, i: int) {
    0 < i && i + |v| < |text| && text[i..i + |v|] == v && !WordChar(text[i - 1]) && !WordChar(text[i + |v|])
  }

  ghost predicate HasWord(text: string, v: string) { exists i :: HasWordAt(text, v, i) }

  lemma HasWordLeft(s: string, b: string, v: string)
    requires HasWord(s, v)
    ensures HasWord(s + b, v)
  {
    var i :| HasWordAt(s, v, i);
    assert (s + b)[i..i + |v|] == s[i..i + |v|];
    assert HasWordAt(s + b, v, i);
  }

  lemma HasWordRight(a: string, s: string, v: string)
    requires HasWord(s, v)
    ensures HasWord(a + s, v)
  {
    var i :| HasWordAt(s, v, i);
    var t, j := a + s, |a| + i;
    assert t[j..j + |v|] == s[i..i + |v|] && t[j - 1] == s[i - 1] && t[j + |v|] == s[i + |v|];
    assert HasWordAt(t, v, j);
  }

  lemma MentionsBetween(a: string, v: string, b: string)
    requires a != "" && b != "" && !WordChar(a[|a| - 1]) && !WordChar(b[0])
    ensures HasWord(a + v + b, v)
  {
    var t, i := a + v + b, |a|;
    assert t[i..i + |v|] == v && t[i - 1] == a[|a| - 1] && t[i + |v|] == b[0];
    assert HasWordAt(t, v, i);
  }

  lemma {:induction false} MentionsInJoin(parts: seq<string>, sep: string, i: nat, v: string)
    requires i < |parts| && HasWord(parts[i], v)
    ensures HasWord(Join(parts, sep), v)
  {
    if |parts| > 1 {
      if i == 0 {
        HasWordLeft(parts[0], sep, v);
        HasWordLeft(parts[0] + sep, Join(parts[1..], sep), v);
      } else {
        MentionsInJoin(parts[1..], sep, i - 1, v);
        HasWordRight(parts[0] + sep, Join(parts[1..], sep), v);
      }
    }
  }

  lemma FlattenHas(bss: seq<seq<(string, string)>>, v: string) returns (i: nat)
    requires v in QueryParams.BoundNames(Flatten(bss))
    ensures i < |bss| && v in QueryParams.BoundNames(bss[i])
  {
    QueryParams.FlatNames(bss, v);
    i :| 0 <= i < |bss| && v in QueryParams.BoundNames(bss[i]);
  }

  /** A compiled clause mentions every variable it binds. */
  lemma {:induction false} PrintMentions(p: Plan, v: string)
    requires v in QueryParams.BoundNames(Bindings(p))
    ensures HasWord(Print(p), v)
  {
    match p
    case Combine(joiner, items) =>
      var i := FlattenHas(BindingsAll(items), v);
      PrintMentions(items[i], v);
      MentionsInJoin(PrintAll(items), joiner.Text(), i, v);
      HasWordRight("(", Join(PrintAll(items), joiner.Text()), v);
      HasWordLeft("(" + Join(PrintAll(items), joiner.Text()), ")", v);
    case Near(_) =>
    case Test(op, field, variable, text) =>
      assert Bindings(p) == [(variable, text)];
      var before := op + "(" + field + ",";
      MentionsBetween(before, v, ")");
      assert before + v + ")" == Print(p);
  }

  /** What follows the root function. */
  function AfterMiddle(e: Env, b: Built): seq<string> {
    [PageArgs(b.page), Closing(b.root)] + Tail(b.filter, Join(FieldTexts(e, b.fields), " "))
  }

  /** The text after the parameter list. */
  function Body(e: Env, b: Built): string { Cat(Middle(b.root, StartText(b.root))) + Cat(AfterMiddle(e, b)) }

  lemma RegroupPieces(a: seq<string>, b: seq<string>, c: seq<string>, d: seq<string>)
    ensures a + b + c + d == a + (b + (c + d))
  {
  }

  lemma CatTwo(a: string, b: string)
    ensures Cat([a, b]) == a + b
  {
    assert [a, b][1..] == [b] && [b][1..] == [];
    assert Cat([b]) == b + "";
  }

  lemma ParamsThenBody(e: Env, b: Built, order: seq<string>)
    ensures QueryFor(e, b, order) == Opening(b.root) + ParamList(b.root, order) + Body(e, b)
  {
    var a, middle := [Opening(b.root), ParamList(b.root, order)], Middle(b.root, StartText(b.root));
    RegroupPieces(a, middle, [PageArgs(b.page), Closing(b.root)], Tail(b.filter, Join(FieldTexts(e, b.fields), " ")));
    CatAppend(a, middle + AfterMiddle(e, b));
    CatAppend(middle, AfterMiddle(e, b));
    CatTwo(Opening(b.root), ParamList(b.root, order));
  }

  /** A piece of the text stands between what comes before and after it. */
  lemma PieceStands(a: seq<string>, p: string, b: seq<string>)
    ensures Cat(a + [p] + b) == Cat(a) + p + Cat(b)
  {
    assert a + [p] + b == a + ([p] + b);
    CatAppend(a, [p] + b);
    assert ([p] + b)[1..] == b;
    QueryText.TextRegroup(Cat(a), p, Cat(b));
  }

  lemma HasWordPiece(a: seq<string>, p: string, b: seq<string>, v: string)
    requires HasWord(p, v)
    ensures HasWord(Cat(a + [p] + b), v)
  {
    PieceStands(a, p, b);
    HasWordRight(Cat(a), p, v);
    HasWordLeft(Cat(a) + p, Cat(b), v);
  }

  lemma FilterStands(e: Env, b: Built)
    ensures AfterMiddle(e, b) == [PageArgs(b.page), Closing(b.root), FILTER_OPEN] + [b.filter]
                                 + [FILTER_CLOSE, Join(FieldTexts(e, b.fields), " "), END]
  {
    SevenPieces(PageArgs(b.page), Closing(b.root), FILTER_OPEN, b.filter, FILTER_CLOSE,
                Join(FieldTexts(e, b.fields), " "), END);
  }

  lemma SevenPieces(p: string, c: string, o: string, f: string, l: string, j: string, e: string)
    ensures [p, c] + [o, f, l, j, e] == [p, c, o] + [f] + [l, j, e]
  {
  }

  lemma BodyHasFilter(e: Env, b: Built, v: string)
    requires HasWord(b.filter, v)
    ensures HasWord(Body(e, b), v)
  {
    FilterStands(e, b);
    HasWordPiece([PageArgs(b.page), Closing(b.root), FILTER_OPEN], b.filter,
                  [FILTER_CLOSE, Join(FieldTexts(e, b.fields), " "), END], v);
    HasWordRight(Cat(Middle(b.root, StartText(b.root))), Cat(AfterMiddle(e, b)), v);
  }

  lemma BodyHasRootQuery(e: Env, b: Built, v: string)
    requires b.root.Found? && HasWord(b.root.text, v)
    ensures HasWord(Body(e, b), v)
  {
    CatTwo(BY_QUERY, b.root.text);
    HasWordRight(BY_QUERY, b.root.text, v);
    HasWordLeft(Cat(Middle(b.root, StartText(b.root))), Cat(AfterMiddle(e, b)), v);
  }

  lemma EndsOfWords()
    ensures RECURSE_FROM != "" && !WordChar(RECURSE_FROM[|RECURSE_FROM| - 1])
    ensures RECURSE_DEPTH != "" && !WordChar(RECURSE_DEPTH[0]) && !WordChar(RECURSE_DEPTH[|RECURSE_DEPTH| - 1])
    ensures RECURSE_ALONG != "" && !WordChar(RECURSE_ALONG[0])
    ensures FROM_IDS != "" && !WordChar(FROM_IDS[|FROM_IDS| - 1])
  {
  }

  /** The fixed variables stand in the templates. */
  lemma BodyHasFixed(e: Env, b: Built, v: string)
    requires v in FixedVars(b.root)
    ensures HasWord(Body(e, b), v)
  {
    MiddleHasFixed(b.root, StartText(b.root), v);
    HasWordLeft(Cat(Middle(b.root, StartText(b.root))), Cat(AfterMiddle(e, b)), v);
  }

  lemma CatThree(a: string, v: string, b: string)
    ensures Cat([a, v, b]) == a + v + b
  {
    assert [a, v, b][1..] == [v, b];
    CatTwo(v, b);
    QueryText.TextRegroup(a, v, b);
  }

  lemma ThreeHaveWord(before: seq<string>, a: string, v: string, b: string, after: seq<string>)
    requires a != "" && b != "" && !WordChar(a[|a| - 1]) && !WordChar(b[0])
    ensures HasWord(Cat(before + [a, v, b] + after), v)
  {
    MentionsBetween(a, v, b);
    CatThree(a, v, b);
    CatAppend(before + [a, v, b], after);
    CatAppend(before, [a, v, b]);
    HasWordRight(Cat(before), Cat([a, v, b]), v);
    HasWordLeft(Cat(before + [a, v, b]), Cat(after), v);
  }

  lemma RecurseHasIds(start: string)
    ensures HasWord(Cat([RECURSE_FROM, IDS, RECURSE_DEPTH, RDEPTH, RECURSE_ALONG, start, RECURSE_END]), IDS)
  {
    EndsOfWords();
    ThreeHaveWord([], RECURSE_FROM, IDS, RECURSE_DEPTH, [RDEPTH, RECURSE_ALONG, start, RECURSE_END]);
    FirstThree(RECURSE_FROM, IDS, RECURSE_DEPTH, [RDEPTH, RECURSE_ALONG, start, RECURSE_END]);
    MiddleThree(RECURSE_FROM, IDS, RECURSE_DEPTH, RDEPTH, RECURSE_ALONG, start, RECURSE_END);
  }

  lemma RecurseHasDepth(start: string)
    ensures HasWord(Cat([RECURSE_FROM, IDS, RECURSE_DEPTH, RDEPTH, RECURSE_ALONG, start, RECURSE_END]), RDEPTH)
  {
    EndsOfWords();
    ThreeHaveWord([RECURSE_FROM, IDS], RECURSE_DEPTH, RDEPTH, RECURSE_ALONG, [start, RECURSE_END]);
    MiddleThree(RECURSE_FROM, IDS, RECURSE_DEPTH, RDEPTH, RECURSE_ALONG, start, RECURSE_END);
  }

  lemma ListHasIds()
    ensures HasWord(Cat([FROM_IDS, IDS, ")"]), IDS)
  {
    EndsOfWords();
    ThreeHaveWord([], FROM_IDS, IDS, ")", []);
    FirstThree(FROM_IDS, IDS, ")", []);
    assert [FROM_IDS, IDS, ")"] + [] == [FROM_IDS, IDS, ")"];
  }

  lemma FirstThree(a: string, b: string, c: string, rest: seq<string>)
    ensures [] + [a, b, c] + rest == [a, b, c] + rest
  {
  }

  lemma MiddleThree(a: string, b: string, c: string, d: string, e: string, f: string, g: string)
    ensures [a, b] + [c, d, e] + [f, g] == [a, b, c, d, e, f, g]
    ensures [a, b, c] + [d, e, f, g] == [a, b, c, d, e, f, g]
  {
  }

  lemma MiddleHasFixed(root: Root, start: string, v: string)
    requires v in FixedVars(root)
    ensures HasWord(Cat(Middle(root, start)), v)
  {
    match root
    case Reached(_, _, _) => if v == IDS { RecurseHasIds(start); } else { RecurseHasDepth(start); }
    case Listed(_) => ListHasIds();
    case _ =>
  }

  /**
   * Every variable that an accepted request binds, which are those its parameter list declares, is used
   * after that list: in the root function, in the root query or in the filter.
   */
  lemma EveryVariableIsUsed(e: Env, q: Request, et: EdgeType, uad: Option<Caller>, allowedSgis: seq<string>, b: Built,
                            v: string)
    requires Build(e, q, et, uad, allowedSgis) == Accepted(b) && v in b.vars
    ensures HasWord(Body(e, b), v)
  {
    PartsOfBuilt(e, q, et, uad, allowedSgis, b);
    RootChoice(e, q, et, b.root);
    QueryParams.BindKeys(FixedVars(b.root), RequestBindings(e, q));
    if v in FixedVars(b.root) {
      BodyHasFixed(e, b, v);
    } else if v in QueryParams.BoundNames(RootBindings(e, q)) {
      PrintMentions(Lower(e, q.rootQuery.value), v);
      BodyHasRootQuery(e, b, v);
    } else {
      var user := Print(Lower(e, EffectiveFilter(e, q)));
      assert v in QueryParams.BoundNames(Bindings(Lower(e, EffectiveFilter(e, q))));
      PrintMentions(Lower(e, EffectiveFilter(e, q)), v);
      UserTextStands(e, q, et, uad, allowedSgis, v);
      BodyHasFilter(e, b, v);
    }
  }

  lemma UserTextStands(e: Env, q: Request, et: EdgeType, uad: Option<Caller>, allowedSgis: seq<string>, v: string)
    requires HasWord(Print(Lower(e, EffectiveFilter(e, q))), v)
    ensures HasWord(FilterText(e, q, et, uad, allowedSgis), v)
  {
    var user := Print(Lower(e, EffectiveFilter(e, q)));
    if Restricted(et, uad) {
      var authz := AuthzText(SanitiseUID(uad.value.uid), SafeSgis(allowedSgis));
      HasWordRight("(", user, v);
      HasWordLeft("(" + user, ") AND ", v);
      HasWordLeft("(" + user + ") AND ", authz, v);
    }
  }
}
