/** Pagination over the readable nodes only: pages are exact because the read check is inside the query. */
module Pages {
  import opened Graph
  import opened Uid
  import opened FilterCompiler
  import opened Dql
  import opened FilterMeaning
  import opened FilterTheorems
  import opened ReadFilter
  import opened Query
  import opened QueryParts
  import opened QueryRun
  import NonInterference
  import QueryReadBack

  /** The same request for page number `i` of size `k`. */
  function PageRequest(q: Request, k: nat, i: nat): Request {
    q.(first := Some(k), offset := Some(i * k), after := None)
  }

  function PageSlice<T>(base: seq<T>, k: nat, i: nat): seq<T> {
    var lo := if i * k <= |base| then i * k else |base|;
    var hi := if i * k + k <= |base| then i * k + k else |base|;
    base[lo..hi]
  }

  /** The first `m` pages one after the other. */
  function FirstPages<T>(base: seq<T>, k: nat, m: nat): seq<T> {
    if m == 0 then [] else FirstPages(base, k, m - 1) + PageSlice(base, k, m - 1)
  }

  lemma {:induction false} FirstPagesPrefix<T>(base: seq<T>, k: nat, m: nat)
    requires k > 0
    ensures FirstPages(base, k, m) == base[..if m * k <= |base| then m * k else |base|]
  {
    if m > 0 {
      FirstPagesPrefix(base, k, m - 1);
      assert m * k == (m - 1) * k + k;
      PrefixAndSlice(base, (m - 1) * k, k);
    }
  }

  lemma PrefixAndSlice<T>(base: seq<T>, from: nat, k: nat)
    ensures var lo := if from <= |base| then from else |base|;
      var hi := if from + k <= |base| then from + k else |base|;
      base[..lo] + base[lo..hi] == base[..hi]
  {
  }

  lemma PaginateIsSlice(dg: Dgraph, page: Page, nodes: seq<Node>, k: nat, i: nat)
    requires k > 0 && page.first == Some(k) && page.offset == Some(i * k) && page.after == None
    ensures Paginate(dg, page, nodes) == PageSlice(nodes, k, i)
  {
    assert i * k >= 0;
  }

  /** The redacted view of a list of nodes. */
  function RedactedViews(e: Env, fields: seq<string>, s: Snapshot, caller: Caller,
                         nodes: seq<Node>): (rs: seq<ResultNode>)
    ensures |rs| == |nodes|
  {
    seq(|nodes|, i requires 0 <= i < |nodes| => Redact(caller, ViewNode(e, fields, s, nodes[i])))
  }

  /** The output filter drops nothing from a list of readable nodes. */
  lemma {:induction false} RespondKeepsReadable(e: Env, fields: seq<string>, s: Snapshot, caller: Caller,
                                                grants: set<string>, nodes: seq<Node>)
    requires forall i :: 0 <= i < |nodes| ==> MayRead(caller, grants, nodes[i])
    ensures Respond(caller, grants, ViewAll(e, fields, s, nodes)) == RedactedViews(e, fields, s, caller, nodes)
    decreases nodes
  {
    if nodes != [] {
      var tail := nodes[1..];
      RespondKeepsReadable(e, fields, s, caller, grants, tail);
      NonInterference.ViewCons(e, fields, s, nodes[0], tail);
      RespondCons(caller, grants, ViewNode(e, fields, s, nodes[0]), ViewAll(e, fields, s, tail));
      RedactedCons(e, fields, s, caller, nodes[0], tail);
      assert nodes == [nodes[0]] + tail;
    }
  }

  lemma RedactedCons(e: Env, fields: seq<string>, s: Snapshot, caller: Caller, n: Node, nodes: seq<Node>)
    ensures RedactedViews(e, fields, s, caller, [n] + nodes)
         == [Redact(caller, ViewNode(e, fields, s, n))] + RedactedViews(e, fields, s, caller, nodes)
  {
  }

  // -------------------------------------------------- what the ordered list contains

  lemma {:induction false} InsertKeeps(dg: Dgraph, field: string, desc: bool, sorted: seq<Node>, n: Node)
    ensures multiset(Insert(dg, field, desc, sorted, n)) == multiset(sorted) + multiset{n}
    decreases sorted
  {
    if sorted != [] {
      assert sorted == [sorted[0]] + sorted[1..];
      if !Less(dg, field, desc, n, sorted[0]) { InsertKeeps(dg, field, desc, sorted[1..], n); }
    }
  }

  lemma {:induction false} SortKeeps(dg: Dgraph, field: string, desc: bool, nodes: seq<Node>)
    ensures multiset(Sort(dg, field, desc, nodes)) == multiset(nodes)
    decreases nodes
  {
    if nodes != [] {
      var front := nodes[..|nodes| - 1];
      assert nodes == front + [nodes[|nodes| - 1]];
      SortKeeps(dg, field, desc, front);
      InsertKeeps(dg, field, desc, Sort(dg, field, desc, front), nodes[|nodes| - 1]);
    }
  }

  /** A node occurs among the matching as often as in the store if it matches, and not at all otherwise. */
  lemma {:induction false} MatchingCounts(p: Prepared, s: Snapshot, dg: Dgraph, nodes: seq<Node>, n: Node)
    ensures multiset(Matching(p, s, dg, nodes))[n] == if Matches(p, s, dg, n) then multiset(nodes)[n] else 0
    decreases nodes
  {
    if nodes != [] {
      assert nodes == [nodes[0]] + nodes[1..];
      MatchingCounts(p, s, dg, nodes[1..], n);
    }
  }

  lemma OrderedCounts(p: Prepared, page: Page, s: Snapshot, dg: Dgraph, n: Node)
    ensures multiset(Ordered(p, page, s, dg))[n] == if Matches(p, s, dg, n) then multiset(s.nodes)[n] else 0
  {
    MatchingCounts(p, s, dg, s.nodes, n);
    SortKeeps(dg, page.order, page.desc, Matching(p, s, dg, s.nodes));
  }

  // ------------------------------------------------ what the restricted filter selects

  /** A caller whose uid and grants survive sanitising, and the response layer's view of the same grants. */
  predicate CleanCaller(caller: Caller, allowedSgis: seq<string>, grants: set<string>) {
    && !caller.IsAdmin() && Canonical(caller.uid)
    && (forall s :: s in allowedSgis ==> SgiChars(s))
    && grants == Members(allowedSgis)
  }

  lemma CleanReadable(caller: Caller, allowedSgis: seq<string>, grants: set<string>, n: Node)
    requires CleanCaller(caller, allowedSgis, grants)
    ensures InQueryReadable(caller, allowedSgis, n) <==> MayRead(caller, grants, n)
  {
    SanitiseFixesExactlyCanonical(caller.uid);
  }

  lemma RestrictedHolds(user: Filter, uid: string, safe: seq<string>, vars: map<string, string>, dg: Tests, n: Node)
    ensures Holds(Resolve(Group(And, [user, AuthzTree(uid, safe)]), vars), dg, n)
       <==> Holds(Resolve(user, vars), dg, n) && Holds(AuthzTree(uid, safe), dg, n)
  {
    AuthzResolves(uid, safe, vars);
    var parts := ResolveAll([user, AuthzTree(uid, safe)], vars);
    assert parts == [Resolve(user, vars), AuthzTree(uid, safe)];
    assert Holds(Group(And, parts), dg, n) <==> Holds(parts[0], dg, n) && Holds(parts[1], dg, n);
  }

  lemma AuthzResolves(uid: string, safe: seq<string>, vars: map<string, string>)
    ensures Resolve(AuthzTree(uid, safe), vars) == AuthzTree(uid, safe)
  {
    if safe != [] {
      var inner := [SgiIn(safe), CanRead];
      assert ResolveAll(inner, vars) == inner;
      assert ResolveAll([OwnedBy(uid), Group(And, inner)], vars) == [OwnedBy(uid), Group(And, inner)];
    }
  }

  lemma FinalFilterParses(e: Env, q: Request, caller: Caller, allowedSgis: seq<string>, b: Built)
    requires EnvOk(e) && !caller.IsAdmin() && Build(e, q, NodeNode, Some(caller), allowedSgis) == Accepted(b)
    requires LeafFieldsAllowed(e, EffectiveFilter(e, q))
    ensures ParseFilter(b.filter)
         == Some(Group(And, [Tree(Lower(e, EffectiveFilter(e, q))),
                             AuthzTree(SanitiseUID(caller.uid), SafeSgis(allowedSgis))]))
  {
    NonInterference.AcceptedRequest(e, q, NodeNode, caller, allowedSgis, b);
    SanitisedIsWord(caller.uid);
    PrintableLower(e, EffectiveFilter(e, q));
    RestrictionNeverCaptured(Lower(e, EffectiveFilter(e, q)), SanitiseUID(caller.uid), SafeSgis(allowedSgis));
  }

  /**
   * The whole final filter, from text to meaning: a node passes exactly when the user's clause tree
   * selects it and the response layer would let the caller read it.
   */
  lemma FinalFilterMeans(e: Env, q: Request, caller: Caller, allowedSgis: seq<string>, grants: set<string>, b: Built,
                         dg: Tests, n: Node)
    requires EnvOk(e) && CleanCaller(caller, allowedSgis, grants)
    requires Build(e, q, NodeNode, Some(caller), allowedSgis) == Accepted(b)
    requires Consistent(RequestBindings(e, q)) && LeafFieldsAllowed(e, EffectiveFilter(e, q))
    ensures ParseFilter(b.filter).Some?
    ensures Holds(Resolve(ParseFilter(b.filter).value, b.vars), dg, n)
       <==> Selects(e, EffectiveFilter(e, q), dg, n) && MayRead(caller, grants, n)
  {
    NonInterference.AcceptedRequest(e, q, NodeNode, caller, allowedSgis, b);
    FinalFilterParses(e, q, caller, allowedSgis, b);
    RequestFilterMeans(e, q, b, dg, n);
    RestrictedMeans(b.filter, Tree(Lower(e, EffectiveFilter(e, q))), caller, allowedSgis, grants, b.vars, dg, n);
  }

  /** A user's filter under the read restriction, for a clean caller. */
  lemma RestrictedMeans(text: string, user: Filter, caller: Caller, allowedSgis: seq<string>, grants: set<string>,
                        vars: map<string, string>, dg: Tests, n: Node)
    requires CleanCaller(caller, allowedSgis, grants)
    requires ParseFilter(text)
          == Some(Group(And, [user, AuthzTree(SanitiseUID(caller.uid), SafeSgis(allowedSgis))]))
    ensures Holds(Resolve(ParseFilter(text).value, vars), dg, n)
       <==> Holds(Resolve(user, vars), dg, n) && MayRead(caller, grants, n)
  {
    var uid, safe := SanitiseUID(caller.uid), SafeSgis(allowedSgis);
    RestrictedHolds(user, uid, safe, vars, dg, n);
    AuthzTreeMeans(uid, safe, dg, n);
    CleanReadable(caller, allowedSgis, grants, n);
  }

  /** The user's part of the filter keeps its meaning under the variables of the whole request. */
  lemma RequestFilterMeans(e: Env, q: Request, b: Built, dg: Tests, n: Node)
    requires EnvOk(e) && GeoClausesValid(EffectiveFilter(e, q)) && LeafFieldsAllowed(e, EffectiveFilter(e, q))
    requires Consistent(RequestBindings(e, q)) && b.vars == Bind(FixedVars(b.root), RequestBindings(e, q))
    ensures Holds(Resolve(Tree(Lower(e, EffectiveFilter(e, q))), b.vars), dg, n)
       <==> Selects(e, EffectiveFilter(e, q), dg, n)
  {
    var c := EffectiveFilter(e, q);
    var mine := Bindings(Lower(e, c));
    ConsistentSuffix(RootBindings(e, q), mine);
    BindAppend(FixedVars(b.root), RootBindings(e, q), mine);
    assert mine + [] == mine;
    CompilePreservesMeaning(e, c, Bind(FixedVars(b.root), RootBindings(e, q)), [], dg, n);
    CompiledTextParses(e, c);
  }

  lemma ConsistentSuffix(a: seq<(string, string)>, b: seq<(string, string)>)
    requires Consistent(a + b)
    ensures Consistent(b)
  {
    forall i, j | 0 <= i < |b| && 0 <= j < |b| && b[i].0 == b[j].0 ensures b[i].1 == b[j].1 {
      assert (a + b)[|a| + i] == b[i] && (a + b)[|a| + j] == b[j];
    }
  }

  /** A prepared filter never lets through a node the caller may not read. */
  ghost predicate ReadableOnly(p: Prepared, dg: Dgraph, caller: Caller, grants: set<string>) {
    forall n :: Holds(p.filter, dg.tests, n) ==> MayRead(caller, grants, n)
  }

  lemma FilterOfPrepared(b: Built)
    requires Prepare(b).Some?
    ensures ParseFilter(b.filter).Some? && Prepare(b).value.filter == Resolve(ParseFilter(b.filter).value, b.vars)
  {
  }

  lemma BuiltIsReadableOnly(e: Env, q: Request, caller: Caller, allowedSgis: seq<string>, grants: set<string>,
                            b: Built, dg: Dgraph)
    requires EnvOk(e) && CleanCaller(caller, allowedSgis, grants)
    requires Build(e, q, NodeNode, Some(caller), allowedSgis) == Accepted(b) && Prepare(b).Some?
    requires Consistent(RequestBindings(e, q)) && LeafFieldsAllowed(e, EffectiveFilter(e, q))
    ensures ReadableOnly(Prepare(b).value, dg, caller, grants)
  {
    FilterOfPrepared(b);
    forall n | Holds(Prepare(b).value.filter, dg.tests, n) ensures MayRead(caller, grants, n) {
      FinalFilterMeans(e, q, caller, allowedSgis, grants, b, dg.tests, n);
    }
  }

  // ----------------------------------------------------------------- exact pages

  function OnePage(page: Page, k: nat, i: nat): Page {
    page.(first := Some(k), offset := Some(i * k), after := None)
  }

  /** What the caller gets for page `i` of a prepared query. */
  function PageAnswer(e: Env, fields: seq<string>, p: Prepared, page: Page, s: Snapshot, dg: Dgraph, caller: Caller,
                      grants: set<string>, k: nat, i: nat): seq<ResultNode>
  {
    Respond(caller, grants,
            ViewAll(e, fields, s, Paginate(dg, OnePage(page, k, i), Ordered(p, OnePage(page, k, i), s, dg))))
  }

  /**
   * Page `i` of size `k` is exactly the `i`-th slice of the readable matching nodes: the output filter
   * removes nothing from it.
   */
  lemma PageIsExact(e: Env, fields: seq<string>, p: Prepared, page: Page, s: Snapshot, dg: Dgraph, caller: Caller,
                    grants: set<string>, k: nat, i: nat)
    requires k > 0 && ReadableOnly(p, dg, caller, grants)
    ensures PageAnswer(e, fields, p, page, s, dg, caller, grants, k, i)
         == RedactedViews(e, fields, s, caller, PageSlice(Ordered(p, page, s, dg), k, i))
  {
    var base := Ordered(p, page, s, dg);
    assert Ordered(p, OnePage(page, k, i), s, dg) == base;
    PaginateIsSlice(dg, OnePage(page, k, i), base, k, i);
    forall j | 0 <= j < |base| ensures MayRead(caller, grants, base[j]) {
      OrderedCounts(p, page, s, dg, base[j]);
      assert multiset(base)[base[j]] > 0 by { assert base[j] in base; }
    }
    RespondKeepsReadable(e, fields, s, caller, grants, PageSlice(base, k, i));
  }

  function Concat<R>(answers: nat -> seq<R>, m: nat): seq<R> {
    if m == 0 then [] else Concat(answers, m - 1) + answers(m - 1)
  }

  lemma {:induction false} ConcatOfSlices<R>(answers: nat -> seq<R>, all: seq<R>, k: nat, m: nat)
    requires forall i: nat :: answers(i) == PageSlice(all, k, i)
    ensures Concat(answers, m) == FirstPages(all, k, m)
  {
    if m > 0 {
      ConcatOfSlices(answers, all, k, m - 1);
    }
  }

  /** The first `m` pages, one request after the other. */
  function PageAnswers(e: Env, fields: seq<string>, p: Prepared, page: Page, s: Snapshot, dg: Dgraph, caller: Caller,
                       grants: set<string>, k: nat, m: nat): seq<ResultNode>
  {
    Concat((i: nat) => PageAnswer(e, fields, p, page, s, dg, caller, grants, k, i), m)
  }

  lemma RedactedSlice(e: Env, fields: seq<string>, s: Snapshot, caller: Caller, base: seq<Node>, k: nat, i: nat)
    ensures RedactedViews(e, fields, s, caller, PageSlice(base, k, i))
         == PageSlice(RedactedViews(e, fields, s, caller, base), k, i)
  {
    SliceOfMapped(base, RedactedViews(e, fields, s, caller, base), PageSlice(base, k, i),
                  RedactedViews(e, fields, s, caller, PageSlice(base, k, i)),
                  n => Redact(caller, ViewNode(e, fields, s, n)), k, i);
  }

  /** A page of what a list is turned into is what the page is turned into. */
  lemma SliceOfMapped<A, B>(base: seq<A>, all: seq<B>, part: seq<A>, views: seq<B>, f: A -> B, k: nat, i: nat)
    requires |all| == |base| && |views| == |part| && part == PageSlice(base, k, i)
    requires forall j :: 0 <= j < |base| ==> all[j] == f(base[j])
    requires forall j :: 0 <= j < |part| ==> views[j] == f(part[j])
    ensures views == PageSlice(all, k, i)
  {
  }

  /** The pages one after the other are the list cut off after the last of them, and all of it once they are enough. */
  lemma PagesConcatenate(e: Env, fields: seq<string>, p: Prepared, page: Page, s: Snapshot, dg: Dgraph,
                         caller: Caller, grants: set<string>, k: nat, m: nat, base: seq<Node>)
    requires k > 0 && ReadableOnly(p, dg, caller, grants) && base == Ordered(p, page, s, dg)
    ensures PageAnswers(e, fields, p, page, s, dg, caller, grants, k, m)
         == FirstPages(RedactedViews(e, fields, s, caller, base), k, m)
    ensures m * k >= |base| ==>
      FirstPages(RedactedViews(e, fields, s, caller, base), k, m) == RedactedViews(e, fields, s, caller, base)
  {
    var all := RedactedViews(e, fields, s, caller, base);
    var answers := (i: nat) => PageAnswer(e, fields, p, page, s, dg, caller, grants, k, i);
    forall i: nat ensures answers(i) == PageSlice(all, k, i) {
      PageIsExact(e, fields, p, page, s, dg, caller, grants, k, i);
      RedactedSlice(e, fields, s, caller, base, k, i);
    }
    ConcatOfSlices(answers, all, k, m);
    FirstPagesPrefix(all, k, m);
  }

  /** Asking for page `i` runs the built query with only its page changed. */
  lemma PageRun(e: Env, q: Request, caller: Caller, allowedSgis: seq<string>, grants: set<string>, s: Snapshot,
                dg: Dgraph, b: Built, k: nat, i: nat)
    requires EnvOk(e) && Build(e, q, NodeNode, Some(caller), allowedSgis) == Accepted(b) && Prepare(b).Some?
    ensures Run(e, PageRequest(q, k, i), NodeNode, caller, allowedSgis, grants, s, dg)
         == Nodes(PageAnswer(e, b.fields, Prepare(b).value, b.page, s, dg, caller, grants, k, i))
  {
    PageRequestBuilds(e, q, caller, allowedSgis, b, k, i);
    PageIsSent(e, q, caller, allowedSgis, b, k, i);
    var page := OnePage(b.page, k, i);
    PreparedIgnoresPage(b, b.(page := page));
    RunAnswers(e, PageRequest(q, k, i), NodeNode, caller, allowedSgis, grants, s, dg, b.(page := page),
               Prepare(b).value, page);
  }

  lemma PageIsSent(e: Env, q: Request, caller: Caller, allowedSgis: seq<string>, b: Built, k: nat, i: nat)
    requires EnvOk(e) && Build(e, q, NodeNode, Some(caller), allowedSgis) == Accepted(b)
    ensures ReadPage(PageArgs(OnePage(b.page, k, i))) == Some(OnePage(b.page, k, i))
  {
    PartsOfBuilt(e, q, NodeNode, Some(caller), allowedSgis, b);
    OnlyPageDiffers(e, q, k, i);
    QueryReadBack.PageIsRead(e, PageRequest(q, k, i));
  }

  lemma PreparedIgnoresPage(b: Built, b': Built)
    requires b' == b.(page := b'.page)
    ensures Prepare(b') == Prepare(b)
  {
  }

  lemma PageRequestBuilds(e: Env, q: Request, caller: Caller, allowedSgis: seq<string>, b: Built, k: nat, i: nat)
    requires Build(e, q, NodeNode, Some(caller), allowedSgis) == Accepted(b)
    ensures Build(e, PageRequest(q, k, i), NodeNode, Some(caller), allowedSgis)
         == Accepted(b.(page := OnePage(b.page, k, i)))
  {
    SameChecks(q, caller, k, i);
    SameRoot(e, q, k, i);
    SameFilterText(e, q, caller, allowedSgis, k, i);
    SameBindings(e, q, k, i);
    OnlyPageDiffers(e, q, k, i);
  }

  lemma SameChecks(q: Request, caller: Caller, k: nat, i: nat)
    ensures CheckQueryFields(PageRequest(q, k, i), Some(caller)) == CheckQueryFields(q, Some(caller))
  {
  }

  lemma SameRoot(e: Env, q: Request, k: nat, i: nat)
    ensures RootOf(e, PageRequest(q, k, i), NodeNode) == RootOf(e, q, NodeNode)
  {
  }

  lemma SameFilterText(e: Env, q: Request, caller: Caller, allowedSgis: seq<string>, k: nat, i: nat)
    ensures FilterText(e, PageRequest(q, k, i), NodeNode, Some(caller), allowedSgis)
         == FilterText(e, q, NodeNode, Some(caller), allowedSgis)
  {
    assert EffectiveFilter(e, PageRequest(q, k, i)) == EffectiveFilter(e, q);
  }

  lemma SameBindings(e: Env, q: Request, k: nat, i: nat)
    ensures RequestBindings(e, PageRequest(q, k, i)) == RequestBindings(e, q)
  {
    assert EffectiveFilter(e, PageRequest(q, k, i)) == EffectiveFilter(e, q);
    assert RootBindings(e, PageRequest(q, k, i)) == RootBindings(e, q);
  }

  lemma OnlyPageDiffers(e: Env, q: Request, k: nat, i: nat)
    ensures PageOf(e, PageRequest(q, k, i)) == OnePage(PageOf(e, q), k, i) && PageRequest(q, k, i).select == q.select
  {
  }

  lemma EveryPageRuns(e: Env, q: Request, caller: Caller, allowedSgis: seq<string>, grants: set<string>, s: Snapshot,
                      dg: Dgraph, b: Built, p: Prepared, k: nat)
    requires EnvOk(e) && Build(e, q, NodeNode, Some(caller), allowedSgis) == Accepted(b) && Prepare(b) == Some(p)
    ensures forall i: nat :: Run(e, PageRequest(q, k, i), NodeNode, caller, allowedSgis, grants, s, dg)
                          == Nodes(PageAnswer(e, b.fields, p, b.page, s, dg, caller, grants, k, i))
  {
    forall i: nat ensures Run(e, PageRequest(q, k, i), NodeNode, caller, allowedSgis, grants, s, dg)
                       == Nodes(PageAnswer(e, b.fields, p, b.page, s, dg, caller, grants, k, i)) {
      PageRun(e, q, caller, allowedSgis, grants, s, dg, b, k, i);
    }
  }

  /**
   * Exact pages: asking for the pages of any size one after the other gives the redacted views of the
   * ordered list up to there, and the whole list once the pages asked for are enough.
   */
  lemma PagesAreExact(e: Env, q: Request, caller: Caller, allowedSgis: seq<string>, grants: set<string>, s: Snapshot,
                      dg: Dgraph, b: Built, p: Prepared, k: nat, m: nat)
    requires EnvOk(e) && CleanCaller(caller, allowedSgis, grants) && k > 0
    requires Build(e, q, NodeNode, Some(caller), allowedSgis) == Accepted(b) && Prepare(b) == Some(p)
    requires Consistent(RequestBindings(e, q)) && LeafFieldsAllowed(e, EffectiveFilter(e, q))
    ensures forall i: nat :: Run(e, PageRequest(q, k, i), NodeNode, caller, allowedSgis, grants, s, dg)
                          == Nodes(PageAnswer(e, b.fields, p, b.page, s, dg, caller, grants, k, i))
    ensures PageAnswers(e, b.fields, p, b.page, s, dg, caller, grants, k, m)
         == FirstPages(RedactedViews(e, b.fields, s, caller, Ordered(p, b.page, s, dg)), k, m)
    ensures m * k >= |Ordered(p, b.page, s, dg)| ==>
      PageAnswers(e, b.fields, p, b.page, s, dg, caller, grants, k, m)
      == RedactedViews(e, b.fields, s, caller, Ordered(p, b.page, s, dg))
  {
    EveryPageRuns(e, q, caller, allowedSgis, grants, s, dg, b, p, k);
    BuiltIsReadableOnly(e, q, caller, allowedSgis, grants, b, dg);
    PagesConcatenate(e, b.fields, p, b.page, s, dg, caller, grants, k, m, Ordered(p, b.page, s, dg));
  }

  /**
   * What the paged list is: each stored node once if the request starts at it, selects it and may show it, else
   * never.
   */
  lemma PagedListContents(e: Env, q: Request, caller: Caller, allowedSgis: seq<string>, grants: set<string>,
                          s: Snapshot, dg: Dgraph, b: Built, p: Prepared, n: Node)
    requires EnvOk(e) && CleanCaller(caller, allowedSgis, grants)
    requires Build(e, q, NodeNode, Some(caller), allowedSgis) == Accepted(b) && Prepare(b) == Some(p)
    requires Consistent(RequestBindings(e, q)) && LeafFieldsAllowed(e, EffectiveFilter(e, q))
    requires b.root.Found? && q.rootQuery.Some? ==> LeafFieldsAllowed(e, q.rootQuery.value)
    ensures multiset(Ordered(p, b.page, s, dg))[n]
         == if QueryReadBack.StartsAt(e, q, NodeNode, s, dg, n) && Selects(e, EffectiveFilter(e, q), dg.tests, n)
               && MayRead(caller, grants, n)
            then multiset(s.nodes)[n] else 0
  {
    OrderedCounts(p, b.page, s, dg, n);
    QueryReadBack.StartsAsRequested(e, q, NodeNode, Some(caller), allowedSgis, b, s, dg, n);
    FinalFilterMeans(e, q, caller, allowedSgis, grants, b, dg.tests, n);
    FilterOfPrepared(b);
  }
}
