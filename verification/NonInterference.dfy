/**
 * Private data does not influence what a non-admin caller sees: the outcome of every query is a
 * function of the store with `p` erased on every node the caller does not own.
 */
module NonInterference {
  import opened Graph
  import opened Text
  import opened Uid
  import opened FilterCompiler
  import opened Dql
  import opened FilterMeaning
  import opened FilterTheorems
  import opened ReadFilter
  import opened Query
  import opened QueryParts
  import opened QueryRun
  import QueryReadBack

  /** What may influence the caller. */
  function Hide(caller: Caller, n: Node): Node {
    if n.own == Some(caller.uid) then n else n.(data := n.data - {PRIVATE_FIELD})
  }

  function HideAll(caller: Caller, nodes: seq<Node>): (hs: seq<Node>)
    ensures |hs| == |nodes|
    ensures forall i :: 0 <= i < |nodes| ==> hs[i] == Hide(caller, nodes[i])
  {
    seq(|nodes|, i requires 0 <= i < |nodes| => Hide(caller, nodes[i]))
  }

  function HideStore(caller: Caller, s: Snapshot): Snapshot { s.(nodes := HideAll(caller, s.nodes)) }

  /** Two stores differ at most in `p` on nodes the caller does not own. */
  predicate SameButPrivate(caller: Caller, s: Snapshot, t: Snapshot) {
    && s.owned == t.owned && s.shared == t.shared && |s.nodes| == |t.nodes|
    && forall i :: 0 <= i < |s.nodes| ==> Hide(caller, s.nodes[i]) == Hide(caller, t.nodes[i])
  }

  /** The filter never looks at `p`. */
  predicate Blind(f: Filter) {
    match f
    case Group(_, parts) => forall i :: 0 <= i < |parts| ==> Blind(parts[i])
    case Match(_, field, _) => field != PRIVATE_FIELD
    case _ => true
  }

  lemma LookupHidden(caller: Caller, n: Node, field: string)
    requires field != PRIVATE_FIELD
    ensures Lookup(Hide(caller, n).data, field) == Lookup(n.data, field)
  {
  }

  lemma {:induction false} HoldsHidden(f: Filter, dg: Tests, caller: Caller, n: Node)
    requires Blind(f)
    ensures Holds(f, dg, Hide(caller, n)) <==> Holds(f, dg, n)
  {
    match f
    case Group(_, parts) =>
      forall i | 0 <= i < |parts| ensures Holds(parts[i], dg, Hide(caller, n)) <==> Holds(parts[i], dg, n) {
        HoldsHidden(parts[i], dg, caller, n);
      }
    case Within(_) => LookupHidden(caller, n, GEO_FIELD);
    case Match(_, field, _) => LookupHidden(caller, n, field);
    case _ =>
  }

  lemma {:induction false} FindHidden(caller: Caller, nodes: seq<Node>, uid: string)
    ensures Find(HideAll(caller, nodes), uid)
         == match Find(nodes, uid) case None => None case Some(n) => Some(Hide(caller, n))
  {
    if nodes != [] {
      FindHidden(caller, nodes[1..], uid);
      assert HideAll(caller, nodes)[1..] == HideAll(caller, nodes[1..]);
    }
  }

  lemma {:induction false} StepHidden(caller: Caller, s: Snapshot, et: EdgeType, uids: seq<string>)
    ensures StepAll(HideStore(caller, s), et, uids) == StepAll(s, et, uids)
  {
    if uids != [] {
      FindHidden(caller, s.nodes, uids[0]);
      StepHidden(caller, s, et, uids[1..]);
    }
  }

  lemma {:induction false} ReachHidden(caller: Caller, s: Snapshot, et: EdgeType, roots: seq<string>, depth: nat)
    ensures Reach(HideStore(caller, s), et, roots, depth) == Reach(s, et, roots, depth)
    decreases depth
  {
    if depth > 0 {
      StepHidden(caller, s, et, roots);
      ReachHidden(caller, s, et, StepAll(s, et, roots), depth - 1);
    }
  }

  predicate BlindPrepared(p: Prepared) { Blind(p.filter) && (p.root.ByFilter? ==> Blind(p.root.f)) }

  lemma MatchesHidden(p: Prepared, caller: Caller, s: Snapshot, dg: Dgraph, n: Node)
    requires BlindPrepared(p)
    ensures Matches(p, HideStore(caller, s), dg, Hide(caller, n)) <==> Matches(p, s, dg, n)
  {
    HoldsHidden(p.filter, dg.tests, caller, n);
    match p.root
    case ByVector(_, _) => assert Vectors(HideStore(caller, s).nodes) == Vectors(s.nodes);
    case ByRadius(_) => LookupHidden(caller, n, GEO_FIELD);
    case ByFilter(f) => HoldsHidden(f, dg.tests, caller, n);
    case ByReach(ids, depth, et) => ReachHidden(caller, s, et, ids, depth);
  }

  lemma {:induction false} MatchingHidden(p: Prepared, caller: Caller, s: Snapshot, dg: Dgraph, nodes: seq<Node>)
    requires BlindPrepared(p)
    ensures Matching(p, HideStore(caller, s), dg, HideAll(caller, nodes)) == HideAll(caller, Matching(p, s, dg, nodes))
    decreases nodes
  {
    if nodes != [] {
      MatchingHidden(p, caller, s, dg, nodes[1..]);
      MatchesHidden(p, caller, s, dg, nodes[0]);
      assert HideAll(caller, nodes)[1..] == HideAll(caller, nodes[1..]);
    }
  }

  lemma HideCons(caller: Caller, n: Node, nodes: seq<Node>)
    ensures HideAll(caller, [n] + nodes) == [Hide(caller, n)] + HideAll(caller, nodes)
  {
  }

  lemma {:induction false} InsertHidden(dg: Dgraph, field: string, desc: bool, caller: Caller, sorted: seq<Node>,
                                        n: Node)
    requires field != PRIVATE_FIELD
    ensures Insert(dg, field, desc, HideAll(caller, sorted), Hide(caller, n))
         == HideAll(caller, Insert(dg, field, desc, sorted, n))
    decreases sorted
  {
    if sorted == [] {
      HideCons(caller, n, []);
    } else {
      LookupHidden(caller, n, field);
      LookupHidden(caller, sorted[0], field);
      InsertHidden(dg, field, desc, caller, sorted[1..], n);
      HideCons(caller, n, sorted);
      HideCons(caller, sorted[0], Insert(dg, field, desc, sorted[1..], n));
      assert HideAll(caller, sorted)[1..] == HideAll(caller, sorted[1..]);
    }
  }

  lemma {:induction false} SortHidden(dg: Dgraph, field: string, desc: bool, caller: Caller, nodes: seq<Node>)
    requires field != PRIVATE_FIELD
    ensures Sort(dg, field, desc, HideAll(caller, nodes)) == HideAll(caller, Sort(dg, field, desc, nodes))
    decreases nodes
  {
    if nodes != [] {
      var front := nodes[..|nodes| - 1];
      SortHidden(dg, field, desc, caller, front);
      InsertHidden(dg, field, desc, caller, Sort(dg, field, desc, front), nodes[|nodes| - 1]);
      assert HideAll(caller, nodes)[..|nodes| - 1] == HideAll(caller, front);
    }
  }

  lemma {:induction false} AfterHidden(dg: Dgraph, cursor: string, caller: Caller, nodes: seq<Node>)
    ensures After(dg, cursor, HideAll(caller, nodes)) == HideAll(caller, After(dg, cursor, nodes))
    decreases nodes
  {
    if nodes != [] {
      AfterHidden(dg, cursor, caller, nodes[1..]);
      assert HideAll(caller, nodes)[1..] == HideAll(caller, nodes[1..]);
    }
  }

  lemma PaginateHidden(dg: Dgraph, page: Page, caller: Caller, nodes: seq<Node>)
    ensures Paginate(dg, page, HideAll(caller, nodes)) == HideAll(caller, Paginate(dg, page, nodes))
  {
    var a := if page.after.Some? then After(dg, page.after.value, nodes) else nodes;
    if page.after.Some? { AfterHidden(dg, page.after.value, caller, nodes); }
    var b := if page.offset.Some? then Skip(page.offset.value, a) else a;
    if page.offset.Some? { SkipHidden(page.offset.value, caller, a); }
    if page.first.Some? { TakeHidden(page.first.value, caller, b); }
  }

  lemma SkipHidden(k: int, caller: Caller, nodes: seq<Node>)
    ensures Skip(k, HideAll(caller, nodes)) == HideAll(caller, Skip(k, nodes))
  {
  }

  lemma TakeHidden(k: int, caller: Caller, nodes: seq<Node>)
    ensures Take(k, HideAll(caller, nodes)) == HideAll(caller, Take(k, nodes))
  {
  }

  lemma {:induction false} EdgesHidden(caller: Caller, s: Snapshot, uids: seq<string>)
    ensures EdgesOf(HideStore(caller, s), uids) == EdgesOf(s, uids)
  {
    if uids != [] {
      FindHidden(caller, s.nodes, uids[0]);
      EdgesHidden(caller, s, uids[1..]);
    }
  }

  /** One node, seen through the response layer, shows nothing that was hidden. */
  lemma ViewHidden(e: Env, fields: seq<string>, caller: Caller, s: Snapshot, n: Node)
    requires !caller.IsAdmin()
    ensures Redact(caller, ViewNode(e, fields, HideStore(caller, s), Hide(caller, n)))
         == Redact(caller, ViewNode(e, fields, s, n))
  {
    EdgesHidden(caller, s, n.out);
    if n.own != Some(caller.uid) {
      assert Shown(e, fields, Hide(caller, n)) - {PRIVATE_FIELD} == Shown(e, fields, n) - {PRIVATE_FIELD};
    }
  }

  lemma {:induction false} RespondHidden(e: Env, fields: seq<string>, caller: Caller, grants: set<string>,
                                         s: Snapshot, nodes: seq<Node>)
    requires !caller.IsAdmin()
    ensures Respond(caller, grants, ViewAll(e, fields, HideStore(caller, s), HideAll(caller, nodes)))
         == Respond(caller, grants, ViewAll(e, fields, s, nodes))
    decreases nodes
  {
    if nodes != [] {
      RespondHidden(e, fields, caller, grants, s, nodes[1..]);
      ViewHidden(e, fields, caller, s, nodes[0]);
      ViewCons(e, fields, s, nodes[0], nodes[1..]);
      ViewCons(e, fields, HideStore(caller, s), Hide(caller, nodes[0]), HideAll(caller, nodes[1..]));
      HideCons(caller, nodes[0], nodes[1..]);
      assert nodes == [nodes[0]] + nodes[1..];
      RespondCons(caller, grants, ViewNode(e, fields, s, nodes[0]), ViewAll(e, fields, s, nodes[1..]));
      RespondCons(caller, grants, ViewNode(e, fields, HideStore(caller, s), Hide(caller, nodes[0])),
                  ViewAll(e, fields, HideStore(caller, s), HideAll(caller, nodes[1..])));
    }
  }

  lemma ViewCons(e: Env, fields: seq<string>, s: Snapshot, n: Node, nodes: seq<Node>)
    ensures ViewAll(e, fields, s, [n] + nodes) == [ViewNode(e, fields, s, n)] + ViewAll(e, fields, s, nodes)
  {
  }

  // ------------------------------------------------- the check makes filters blind

  /** Only the two cases of a letter lower to it, so a field that is not named never renders to it. */
  lemma UnnamedFieldRenders(e: Env, field: string)
    requires !Names(field, 'p')
    ensures RenderField(e, field) != PRIVATE_FIELD
  {
    if |field| == 1 { assert LowerChar(field[0]) != 'p'; }
  }

  lemma {:induction false} UnnamedTreeIsBlind(e: Env, c: Clause, vars: map<string, string>)
    requires !ClauseNamesField(c, 'p')
    ensures Blind(Resolve(Tree(Lower(e, c)), vars))
  {
    match View(c)
    case Branch(joiner, items) =>
      var trees := Trees(Lower(e, c).items);
      ResolveGrouped(joiner, trees, vars);
      forall i | 0 <= i < |items| ensures Blind(ResolveAll(trees, vars)[i]) {
        UnnamedTreeIsBlind(e, items[i], vars);
      }
    case Radius =>
    case Leaf => UnnamedFieldRenders(e, c.field);
  }

  lemma DefaultFilterUnnamed(e: Env)
    ensures !ClauseNamesField(DefaultFilter(e), 'p') && GeoClausesValid(DefaultFilter(e))
  {
  }

  /** A request that passed the check compiles to filters that never look at `p`, or to no filter at all. */
  lemma PreparedIsBlind(e: Env, q: Request, et: EdgeType, caller: Caller, allowedSgis: seq<string>, b: Built)
    requires EnvOk(e) && !caller.IsAdmin()
    requires Build(e, q, et, Some(caller), allowedSgis) == Accepted(b)
    ensures Prepare(b).Some? ==> BlindPrepared(Prepare(b).value)
    ensures b.page.order != PRIVATE_FIELD && ReadPage(PageArgs(b.page)) == Some(b.page)
  {
    QueryReadBack.PageIsRead(e, q);
    var c := EffectiveFilter(e, q);
    AcceptedRequest(e, q, et, caller, allowedSgis, b);
    FilterTextBlind(e, c, q, et, caller, allowedSgis, b.vars);
    if b.root.Found? {
      RootTextBlind(e, q.rootQuery.value, b.vars);
    }
    BlindParts(b);
  }

  /** A query is blind if its filters are. */
  lemma BlindParts(b: Built)
    requires ParseFilter(b.filter).Some? ==> Blind(Resolve(ParseFilter(b.filter).value, b.vars))
    requires b.root.Found? && ParseFilter(b.root.text).Some? ==> Blind(Resolve(ParseFilter(b.root.text).value, b.vars))
    ensures Prepare(b).Some? ==> BlindPrepared(Prepare(b).value)
  {
  }

  /** What an accepted request is known to satisfy. */
  lemma AcceptedRequest(e: Env, q: Request, et: EdgeType, caller: Caller, allowedSgis: seq<string>, b: Built)
    requires !caller.IsAdmin() && Build(e, q, et, Some(caller), allowedSgis) == Accepted(b)
    ensures !ClauseNamesField(EffectiveFilter(e, q), 'p') && GeoClausesValid(EffectiveFilter(e, q))
    ensures b.filter == FilterText(e, q, et, Some(caller), allowedSgis)
    ensures b.page == PageOf(e, q) && b.page.order != PRIVATE_FIELD
    ensures b.root.Found? ==> q.rootQuery.Some? && !ClauseNamesField(q.rootQuery.value, 'p')
    ensures b.root.Found? ==> GeoClausesValid(q.rootQuery.value) && b.root.text == Print(Lower(e, q.rootQuery.value))
  {
    PartsOfBuilt(e, q, et, Some(caller), allowedSgis, b);
    RootChoice(e, q, et, b.root);
    DefaultFilterUnnamed(e);
    CheckPassed(q, caller);
    OrderIsNotPrivate(e, q, caller);
  }

  lemma OrderIsNotPrivate(e: Env, q: Request, caller: Caller)
    requires !caller.IsAdmin() && CheckQueryFields(q, Some(caller)).None?
    ensures PageOf(e, q).order != PRIVATE_FIELD
  {
    CheckPassed(q, caller);
    if q.orderBy.Some? { UnnamedFieldRenders(e, q.orderBy.value); }
  }

  /** The end of a path of subclauses, each step taken in the `and` list or in the `or` list, compiled or not. */
  predicate Inside(c: Clause, path: seq<(Joiner, nat)>, sub: Clause)
    decreases |path|
  {
    if path == [] then sub == c
    else
      match path[0]
      case (And, i) => c.and.Present? && i < |c.and.items| && Inside(c.and.items[i], path[1..], sub)
      case (Or, i) => c.or.Present? && i < |c.or.items| && Inside(c.or.items[i], path[1..], sub)
  }

  /** The private field, as a client may write it, and the radius field. */
  predicate IsPrivateName(field: string) { field == "p" || field == "P" }

  predicate IsGeoName(field: string) { field == "g" || field == "G" }

  /** Some clause of the tree, at any depth and even where the compiler never looks, has such a field. */
  ghost predicate Mentions(c: Clause, isName: string -> bool) {
    exists path, sub :: Inside(c, path, sub) && isName(sub.field)
  }

  ghost predicate RequestMentions(q: Request, isName: string -> bool) {
    || (q.filters.Some? && Mentions(q.filters.value, isName))
    || (q.rootQuery.Some? && Mentions(q.rootQuery.value, isName))
    || (q.orderBy.Some? && isName(q.orderBy.value))
  }

  /** The two cases of a letter and nothing else. */
  ghost predicate NamesOf(letter: char, isName: string -> bool)
    requires 'a' <= letter <= 'z'
  {
    forall field :: Names(field, letter) <==> isName(field)
  }

  lemma {:induction false} NamedIsMentioned(c: Clause, letter: char, isName: string -> bool)
      returns (path: seq<(Joiner, nat)>, sub: Clause)
    requires 'a' <= letter <= 'z' && NamesOf(letter, isName) && ClauseNamesField(c, letter)
    ensures Inside(c, path, sub) && isName(sub.field)
    decreases c
  {
    if Names(c.field, letter) {
      path, sub := [], c;
    } else if c.and.Present? && exists i :: 0 <= i < |c.and.items| && ClauseNamesField(c.and.items[i], letter) {
      var i: nat :| i < |c.and.items| && ClauseNamesField(c.and.items[i], letter);
      var rest;
      rest, sub := NamedIsMentioned(c.and.items[i], letter, isName);
      path := [(And, i)] + rest;
      assert path[1..] == rest;
    } else {
      var i: nat :| i < |c.or.items| && ClauseNamesField(c.or.items[i], letter);
      var rest;
      rest, sub := NamedIsMentioned(c.or.items[i], letter, isName);
      path := [(Or, i)] + rest;
      assert path[1..] == rest;
    }
  }

  lemma {:induction false} MentionedIsNamed(c: Clause, letter: char, isName: string -> bool,
                                            path: seq<(Joiner, nat)>, sub: Clause)
    requires 'a' <= letter <= 'z' && NamesOf(letter, isName) && Inside(c, path, sub) && isName(sub.field)
    ensures ClauseNamesField(c, letter)
    decreases |path|
  {
    if path != [] {
      match path[0]
      case (And, i) => MentionedIsNamed(c.and.items[i], letter, isName, path[1..], sub);
      case (Or, i) => MentionedIsNamed(c.or.items[i], letter, isName, path[1..], sub);
    }
  }

  lemma NamesExactly(c: Clause, letter: char, isName: string -> bool)
    requires 'a' <= letter <= 'z' && NamesOf(letter, isName)
    ensures ClauseNamesField(c, letter) <==> Mentions(c, isName)
  {
    if ClauseNamesField(c, letter) {
      var path, sub := NamedIsMentioned(c, letter, isName);
    }
    if Mentions(c, isName) {
      var path, sub :| Inside(c, path, sub) && isName(sub.field);
      MentionedIsNamed(c, letter, isName, path, sub);
    }
  }

  lemma RequestNamesExactly(q: Request, letter: char, isName: string -> bool)
    requires 'a' <= letter <= 'z' && NamesOf(letter, isName)
    ensures QueryNamesField(q, letter) <==> RequestMentions(q, isName)
  {
    if q.filters.Some? { NamesExactly(q.filters.value, letter, isName); }
    if q.rootQuery.Some? { NamesExactly(q.rootQuery.value, letter, isName); }
  }

  lemma PrivateNames()
    ensures NamesOf('p', IsPrivateName) && NamesOf('g', IsGeoName)
  {
    forall field ensures Names(field, 'p') <==> IsPrivateName(field) {}
    forall field ensures Names(field, 'g') <==> IsGeoName(field) {}
  }

  /**
   * A query is refused for the private field exactly if its caller is not sys and some clause of either
   * tree, at any depth and even where the compiler never looks, or its order, names `p` in either case.
   */
  lemma RefusedExactlyWhenMentioned(q: Request, caller: Caller)
    ensures CheckQueryFields(q, Some(caller)) == Some(PrivateField)
       <==> caller.role != "sys" && RequestMentions(q, IsPrivateName)
  {
    PrivateNames();
    RequestNamesExactly(q, 'p', IsPrivateName);
  }

  /**
   * Which queries are refused, all reasons together: the private field named by anybody but sys, the radius field
   * named by anybody, two ways to start at once, a malformed block, or nothing to start from.
   */
  lemma RefusedExactly(e: Env, q: Request, et: EdgeType, uad: Option<Caller>, allowedSgis: seq<string>)
    ensures Build(e, q, et, uad, allowedSgis).Refused?
       <==> || (uad.Some? && uad.value.role != "sys" && RequestMentions(q, IsPrivateName))
            || RequestMentions(q, IsGeoName)
            || (q.similar != NoVector && q.geo != NoGeo)
            || (q.filters.Some? && !GeoClausesValid(q.filters.value))
            || (q.rootQuery.Some? && !GeoClausesValid(q.rootQuery.value))
            || (q.similar != NoVector && !VectorValid(q.similar))
            || (q.geo != NoGeo && !GeoValid(q.geo))
            || (q.similar == NoVector && q.geo == NoGeo && q.rootQuery.None? && q.rootIds == [])
  {
    PrivateNames();
    RequestNamesExactly(q, 'p', IsPrivateName);
    RequestNamesExactly(q, 'g', IsGeoName);
    RootRefusedExactly(e, q, et);
  }

  lemma RootRefusedExactly(e: Env, q: Request, et: EdgeType)
    ensures RootOf(e, q, et).Refused?
       <==> if q.similar != NoVector then !VectorValid(q.similar)
            else if q.geo != NoGeo then !GeoValid(q.geo)
            else q.rootQuery.None? && q.rootIds == []
  {
  }

  lemma CheckPassed(q: Request, caller: Caller)
    requires !caller.IsAdmin() && CheckQueryFields(q, Some(caller)).None?
    ensures q.filters.Some? ==> !ClauseNamesField(q.filters.value, 'p') && GeoClausesValid(q.filters.value)
    ensures q.rootQuery.Some? ==> !ClauseNamesField(q.rootQuery.value, 'p') && GeoClausesValid(q.rootQuery.value)
    ensures q.orderBy.Some? ==> !Names(q.orderBy.value, 'p')
  {
  }

  lemma RootTextBlind(e: Env, c: Clause, vars: map<string, string>)
    requires EnvOk(e) && !ClauseNamesField(c, 'p') && GeoClausesValid(c)
    ensures ParseFilter(Print(Lower(e, c))).Some? ==> Blind(Resolve(ParseFilter(Print(Lower(e, c))).value, vars))
  {
    CompiledTextParses(e, c);
    UnnamedTreeIsBlind(e, c, vars);
  }

  lemma FilterTextBlind(e: Env, c: Clause, q: Request, et: EdgeType, caller: Caller, allowedSgis: seq<string>,
                        vars: map<string, string>)
    requires EnvOk(e) && c == EffectiveFilter(e, q) && !ClauseNamesField(c, 'p') && GeoClausesValid(c)
    ensures var parsed := ParseFilter(FilterText(e, q, et, Some(caller), allowedSgis));
      parsed.Some? ==> Blind(Resolve(parsed.value, vars))
  {
    CompiledTextParses(e, c);
    UnnamedTreeIsBlind(e, c, vars);
    if Restricted(et, Some(caller)) {
      var uid, safe := SanitiseUID(caller.uid), SafeSgis(allowedSgis);
      SanitisedIsWord(caller.uid);
      PrintableLower(e, c);
      RestrictionNeverCaptured(Lower(e, c), uid, safe);
      AuthzBlind(uid, safe, vars);
      BlindPair(Tree(Lower(e, c)), AuthzTree(uid, safe), vars);
    }
  }

  lemma AuthzBlind(uid: string, safe: seq<string>, vars: map<string, string>)
    ensures Blind(Resolve(AuthzTree(uid, safe), vars))
  {
    if safe != [] {
      var inner := [SgiIn(safe), CanRead];
      assert ResolveAll(inner, vars) == inner;
      assert Blind(Group(And, inner));
      assert ResolveAll([OwnedBy(uid), Group(And, inner)], vars) == [OwnedBy(uid), Group(And, inner)];
    }
  }

  lemma BlindPair(a: Filter, b: Filter, vars: map<string, string>)
    requires Blind(Resolve(a, vars)) && Blind(Resolve(b, vars))
    ensures Blind(Resolve(Group(And, [a, b]), vars))
  {
    assert ResolveAll([a, b], vars) == [Resolve(a, vars), Resolve(b, vars)];
  }

  lemma AnswerHidden(e: Env, fields: seq<string>, p: Prepared, page: Page, caller: Caller, grants: set<string>,
                     s: Snapshot, dg: Dgraph)
    requires !caller.IsAdmin() && BlindPrepared(p) && page.order != PRIVATE_FIELD
    ensures Respond(caller, grants, Answer(e, fields, p, page, HideStore(caller, s), dg))
         == Respond(caller, grants, Answer(e, fields, p, page, s, dg))
  {
    var found := Matching(p, s, dg, s.nodes);
    MatchingHidden(p, caller, s, dg, s.nodes);
    if page.order != "" { SortHidden(dg, page.order, page.desc, caller, found); }
    PaginateHidden(dg, page, caller, Ordered(p, page, s, dg));
    RespondHidden(e, fields, caller, grants, s, Paginate(dg, page, Ordered(p, page, s, dg)));
  }

  /** The outcome is a function of the hidden store. */
  lemma RunHidden(e: Env, q: Request, et: EdgeType, caller: Caller, allowedSgis: seq<string>, grants: set<string>,
                  s: Snapshot, dg: Dgraph)
    requires EnvOk(e) && !caller.IsAdmin()
    ensures Run(e, q, et, caller, allowedSgis, grants, HideStore(caller, s), dg)
         == Run(e, q, et, caller, allowedSgis, grants, s, dg)
  {
    var built := Build(e, q, et, Some(caller), allowedSgis);
    if built.Accepted? && Prepare(built.value).Some? {
      var b, p := built.value, Prepare(built.value).value;
      PreparedIsBlind(e, q, et, caller, allowedSgis, b);
      RunAnswers(e, q, et, caller, allowedSgis, grants, s, dg, b, p, b.page);
      RunAnswers(e, q, et, caller, allowedSgis, grants, HideStore(caller, s), dg, b, p, b.page);
      AnswerHidden(e, b.fields, p, b.page, caller, grants, s, dg);
    }
  }

  /**
   * Noninterference: for a non-admin caller, two stores that differ only in `p` on nodes the caller
   * does not own give the same outcome for every query of every kind: the same rejection, the same
   * database error, or the same nodes with the same fields in the same order.
   */
  lemma PrivateFieldNonInterference(e: Env, q: Request, et: EdgeType, caller: Caller, allowedSgis: seq<string>,
                                    grants: set<string>, s: Snapshot, t: Snapshot, dg: Dgraph)
    requires EnvOk(e) && !caller.IsAdmin() && SameButPrivate(caller, s, t)
    ensures Run(e, q, et, caller, allowedSgis, grants, s, dg) == Run(e, q, et, caller, allowedSgis, grants, t, dg)
  {
    assert HideStore(caller, s) == HideStore(caller, t);
    RunHidden(e, q, et, caller, allowedSgis, grants, s, dg);
    RunHidden(e, q, et, caller, allowedSgis, grants, t, dg);
  }
}
