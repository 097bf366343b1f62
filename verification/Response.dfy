/**
 * The response layer (responses/cogged.go): which result nodes are returned, what is stripped from
 * them, and the token stamped on every node of the answer, neighbours included.
 */
module Response {
  import opened Graph
  import opened AuthzData
  import opened ReadFilter
  import QueryRun

  /** A result node as decoded from the database's answer: a finite tree along the selected out-edges. */
  datatype Tree = Tree(authz: Authz, private: Option<string>, data: map<string, string>, ad: string, edges: seq<Tree>)

  predicate OwnedByCaller(caller: Caller, t: Tree) { t.authz.own == Some(caller.uid) }

  /** `RedactPrivateDataFor`; a nil caller redacts everything. */
  function Redact(t: Tree, uad: Option<Caller>): Tree {
    if uad.Some? && uad.value.IsAdmin() then t
    else
      t.(private := if uad.Some? && OwnedByCaller(uad.value, t) then t.private else None,
         edges := seq(|t.edges|, i requires 0 <= i < |t.edges| => Redact(t.edges[i], uad)))
  }

  predicate TreePackable(t: Tree) {
    Packable(t.authz) && forall i :: 0 <= i < |t.edges| ==> TreePackable(t.edges[i])
  }

  predicate AllPackable(ts: seq<Tree>) { forall i :: 0 <= i < |ts| ==> TreePackable(ts[i]) }

  /** `AuthzDataPack` on a node and, through it, on every neighbour. */
  function Pack(mac: Mac, t: Tree, key: string): Tree
    requires TreePackable(t)
  {
    t.(authz := t.authz.(bits := NoNulls(t.authz.bits)),
       ad := PackAD(mac, t.authz, key),
       edges := seq(|t.edges|, i requires 0 <= i < |t.edges| => Pack(mac, t.edges[i], key)))
  }

  /** `path` leads from the root to `sub`, one edge index at a time. */
  predicate At(t: Tree, path: seq<nat>, sub: Tree)
    decreases |path|
  {
    if path == [] then sub == t
    else path[0] < |t.edges| && At(t.edges[path[0]], path[1..], sub)
  }

  /**
   * Redaction is per node, not per tree: after it, wherever in the tree, private data is left exactly
   * where the caller owns that very node (or is sys), and nothing else has changed.
   */
  lemma {:induction false} RedactionIsPerNode(t: Tree, uad: Option<Caller>, path: seq<nat>, sub: Tree)
    requires At(t, path, sub)
    ensures At(Redact(t, uad), path, Redact(sub, uad))
    ensures Redact(sub, uad).private
         == if uad.Some? && (uad.value.IsAdmin() || OwnedByCaller(uad.value, sub)) then sub.private else None
    ensures Redact(sub, uad).authz == sub.authz && Redact(sub, uad).data == sub.data && Redact(sub, uad).ad == sub.ad
    ensures |Redact(sub, uad).edges| == |sub.edges|
    decreases |path|
  {
    if path != [] {
      RedactionIsPerNode(t.edges[path[0]], uad, path[1..], sub);
    }
  }

  /** Every node of a packed tree carries a token for exactly its own authz fields, valid under the caller's key. */
  lemma {:induction false} EveryNodeStamped(mac: Mac, t: Tree, key: string, path: seq<nat>, sub: Tree)
    requires TreePackable(t) && At(t, path, sub)
    ensures TreePackable(sub) && At(Pack(mac, t, key), path, Pack(mac, sub, key))
    ensures NodeFromAD(mac, Pack(mac, sub, key).ad, key).Some?
    ensures SameAuthz(NodeFromAD(mac, Pack(mac, sub, key).ad, key).value, sub.authz)
    ensures Pack(mac, sub, key).private == sub.private && Pack(mac, sub, key).data == sub.data
    decreases |path|
  {
    if path != [] {
      EveryNodeStamped(mac, t.edges[path[0]], key, path[1..], sub);
    } else {
      AdTextParts(sub.authz);
      VerifyOwn(mac, AdText(sub.authz), key);
      TextRoundTrip(sub.authz);
    }
  }

  lemma {:induction false} RedactKeepsPackable(t: Tree, uad: Option<Caller>)
    requires TreePackable(t)
    ensures TreePackable(Redact(t, uad))
  {
    forall i | 0 <= i < |t.edges| ensures TreePackable(Redact(t.edges[i], uad)) {
      RedactKeepsPackable(t.edges[i], uad);
    }
  }

  function AsNode(a: Authz): Node { Node(a.uid, a.own, a.sgi, a.bits, map[], None, []) }

  predicate Readable(caller: Caller, grants: set<string>, t: Tree) { MayRead(caller, grants, AsNode(t.authz)) }

  function Stamped(mac: Mac, t: Tree, caller: Caller): Tree
    requires TreePackable(t)
  {
    RedactKeepsPackable(t, Some(caller));
    Pack(mac, Redact(t, Some(caller)), caller.key)
  }

  /** What the caller gets: the readable nodes in order, each redacted and stamped. */
  function Returned(mac: Mac, nodes: seq<Tree>, caller: Caller, grants: set<string>): seq<Tree>
    requires AllPackable(nodes)
  {
    if nodes == [] then []
    else
      var last := nodes[|nodes| - 1];
      Returned(mac, nodes[..|nodes| - 1], caller, grants)
      + if Readable(caller, grants, last) then [Stamped(mac, last, caller)] else []
  }

  // -------------------------------------------------------------- which nodes are returned

  predicate Increasing(places: seq<nat>) { forall i, k :: 0 <= i < k < |places| ==> places[i] < places[k] }

  /** `ys` is made of the elements of `xs` at these places, in their order, and these are the ones to keep. */
  ghost predicate MadeFrom<A, B>(xs: seq<A>, ys: seq<B>, keep: A -> bool, made: (A, B) -> bool, places: seq<nat>) {
    && |places| == |ys| && Increasing(places)
    && (forall k :: 0 <= k < |ys| ==> places[k] < |xs| && made(xs[places[k]], ys[k]))
    && (forall i :: 0 <= i < |xs| ==> (i in places <==> keep(xs[i])))
  }

  lemma KeepOneMore<A, B>(xs: seq<A>, x: A, ys: seq<B>, y: B, keep: A -> bool, made: (A, B) -> bool, places: seq<nat>)
    requires MadeFrom(xs, ys, keep, made, places) && keep(x) && made(x, y)
    ensures MadeFrom(xs + [x], ys + [y], keep, made, places + [|xs|])
  {
    var more := places + [|xs|];
    forall k | 0 <= k < |ys| + 1 ensures more[k] < |xs| + 1 && made((xs + [x])[more[k]], (ys + [y])[k]) {
      if k < |ys| { assert more[k] == places[k]; }
    }
    PlacesAreWithin(xs, ys, keep, made, places);
    forall i | 0 <= i < |xs| + 1 ensures i in more <==> keep((xs + [x])[i]) {
      if i < |xs| { assert i in places <==> keep(xs[i]); }
    }
  }

  lemma DropOneMore<A, B>(xs: seq<A>, x: A, ys: seq<B>, keep: A -> bool, made: (A, B) -> bool, places: seq<nat>)
    requires MadeFrom(xs, ys, keep, made, places) && !keep(x)
    ensures MadeFrom(xs + [x], ys, keep, made, places)
  {
    PlacesAreWithin(xs, ys, keep, made, places);
    forall i | 0 <= i < |xs| + 1 ensures i in places <==> keep((xs + [x])[i]) {
      if i < |xs| { assert i in places <==> keep(xs[i]); }
    }
  }

  lemma KeepOrDrop<A, B>(xs: seq<A>, x: A, ys: seq<B>, y: B, keep: A -> bool, made: (A, B) -> bool, before: seq<nat>)
      returns (places: seq<nat>)
    requires MadeFrom(xs, ys, keep, made, before) && made(x, y)
    ensures MadeFrom(xs + [x], ys + if keep(x) then [y] else [], keep, made, places)
  {
    if keep(x) {
      KeepOneMore(xs, x, ys, y, keep, made, before);
      places := before + [|xs|];
    } else {
      DropOneMore(xs, x, ys, keep, made, before);
      assert ys + [] == ys;
      places := before;
    }
  }

  lemma PlacesAreWithin<A, B>(xs: seq<A>, ys: seq<B>, keep: A -> bool, made: (A, B) -> bool, places: seq<nat>)
    requires MadeFrom(xs, ys, keep, made, places)
    ensures forall p :: p in places ==> p < |xs|
  {
  }

  /** The caller owns the node, is sys, or has its group where the read bit is set. */
  predicate MaySee(a: Authz, caller: Caller, grants: set<string>) {
    || a.own == Some(caller.uid) || caller.role == "sys"
    || (a.sgi.Some? && a.sgi.value in grants && a.bits.r == Some(true))
  }

  /** A node as it is answered: of this node, with this node's fields and a token for them. */
  predicate AnswerOf(mac: Mac, key: string, t: Tree, s: Tree) {
    && TreePackable(t) && s.authz.uid == t.authz.uid && SameAuthz(s.authz, t.authz)
    && s.ad == PackAD(mac, t.authz, key)
  }

  function Seen(caller: Caller, grants: set<string>): Tree -> bool { (t: Tree) => MaySee(t.authz, caller, grants) }

  function Answering(mac: Mac, key: string): (Tree, Tree) -> bool { (t: Tree, s: Tree) => AnswerOf(mac, key, t, s) }

  lemma StampedIsAnswer(mac: Mac, t: Tree, caller: Caller)
    requires TreePackable(t)
    ensures AnswerOf(mac, caller.key, t, Stamped(mac, t, caller))
  {
    RedactKeepsPackable(t, Some(caller));
    NoNullsIsSame(t.authz);
  }

  lemma NoNullsIsSame(a: Authz)
    ensures SameAuthz(a.(bits := NoNulls(a.bits)), a)
  {
  }

  lemma ReadableSpelledOut(t: Tree, caller: Caller, grants: set<string>)
    ensures Readable(caller, grants, t) <==> MaySee(t.authz, caller, grants)
  {
  }

  /** What an answer to these nodes must be. */
  ghost predicate IsAnswer(mac: Mac, nodes: seq<Tree>, caller: Caller, grants: set<string>, answer: seq<Tree>,
                           places: seq<nat>)
  {
    MadeFrom(nodes, answer, Seen(caller, grants), Answering(mac, caller.key), places)
  }

  lemma ReturnedSnoc(mac: Mac, front: seq<Tree>, last: Tree, caller: Caller, grants: set<string>)
    requires AllPackable(front) && TreePackable(last)
    ensures AllPackable(front + [last])
    ensures Returned(mac, front + [last], caller, grants)
         == Returned(mac, front, caller, grants)
            + if Readable(caller, grants, last) then [Stamped(mac, last, caller)] else []
  {
    assert (front + [last])[..|front|] == front;
  }

  lemma {:induction false} ReturnedIsAnswer(mac: Mac, nodes: seq<Tree>, caller: Caller, grants: set<string>)
      returns (places: seq<nat>)
    requires AllPackable(nodes)
    ensures IsAnswer(mac, nodes, caller, grants, Returned(mac, nodes, caller, grants), places)
  {
    places := [];
    if nodes != [] {
      var front, last := nodes[..|nodes| - 1], nodes[|nodes| - 1];
      assert nodes == front + [last];
      places := ReturnedIsAnswer(mac, front, caller, grants);
      places := AnswerOneMore(mac, front, last, caller, grants, places);
    }
  }

  lemma AnswerOneMore(mac: Mac, front: seq<Tree>, last: Tree, caller: Caller, grants: set<string>, before: seq<nat>)
      returns (places: seq<nat>)
    requires AllPackable(front) && TreePackable(last)
    requires IsAnswer(mac, front, caller, grants, Returned(mac, front, caller, grants), before)
    ensures AllPackable(front + [last])
    ensures IsAnswer(mac, front + [last], caller, grants, Returned(mac, front + [last], caller, grants), places)
  {
    ReturnedSnoc(mac, front, last, caller, grants);
    ReadableSpelledOut(last, caller, grants);
    StampedIsAnswer(mac, last, caller);
    places := KeepOrDrop(front, last, Returned(mac, front, caller, grants), Stamped(mac, last, caller),
                         Seen(caller, grants), Answering(mac, caller.key), before);
  }

  /**
   * With no empty grant, a node is returned exactly when its own token, presented back, is granted with "r".
   * The one exception, a node without an owner and a caller with an empty uid, cannot be told apart by a token.
   */
  lemma SeenIffTokenGrantsRead(mac: Mac, a: Authz, caller: Caller, grants: set<string>)
    requires Packable(a) && "" !in grants
    ensures Unpack(mac, PackAD(mac, a, caller.key), caller, grants, "r").Some?
       <==> MaySee(a, caller, grants) || (a.own.None? && caller.uid == "")
  {
    PackUnpack(mac, a, caller, grants, "r");
    GrantsSpelledOut(a, caller, grants);
  }

  /** Its own tokens grant reading, and no node whose token would is left out. */
  ghost predicate AnswersByToken(mac: Mac, nodes: seq<Tree>, caller: Caller, grants: set<string>, answer: seq<Tree>,
                                 places: seq<nat>)
  {
    && (forall k :: 0 <= k < |answer| ==> Unpack(mac, answer[k].ad, caller, grants, "r").Some?)
    && (forall i :: 0 <= i < |nodes| && Packable(nodes[i].authz) ==>
          (Unpack(mac, PackAD(mac, nodes[i].authz, caller.key), caller, grants, "r").Some? <==> i in places))
  }

  /** `CoggedResponse.AuthzDataPack` on the result nodes. */
  method PackResultNodes(mac: Mac, resultNodes: seq<Tree>, caller: Caller, grants: set<string>)
      returns (filteredNodes: seq<Tree>, ghost places: seq<nat>)
    requires AllPackable(resultNodes)
    ensures filteredNodes == Returned(mac, resultNodes, caller, grants)
    ensures IsAnswer(mac, resultNodes, caller, grants, filteredNodes, places)
    ensures "" !in grants && caller.uid != "" ==>
      AnswersByToken(mac, resultNodes, caller, grants, filteredNodes, places)
  {
    filteredNodes := [];
    for k := 0 to |resultNodes|
      invariant filteredNodes == Returned(mac, resultNodes[..k], caller, grants)
    {
      assert resultNodes[..k + 1][..k] == resultNodes[..k];
      var node := resultNodes[k];
      if (node.authz.own.Some? && node.authz.own.value == caller.uid)
         || caller.IsAdmin()
         || (node.authz.sgi.Some? && node.authz.sgi.value in grants && IsSet(node.authz.bits.r)) {
        filteredNodes := filteredNodes + [Stamped(mac, node, caller)];
      }
    }
    assert resultNodes[..|resultNodes|] == resultNodes;
    places := ReturnedIsAnswer(mac, resultNodes, caller, grants);
    if "" !in grants && caller.uid != "" { AnswerByToken(mac, resultNodes, caller, grants, filteredNodes, places); }
  }

  lemma AnswerByToken(mac: Mac, nodes: seq<Tree>, caller: Caller, grants: set<string>, answer: seq<Tree>,
                      places: seq<nat>)
    requires IsAnswer(mac, nodes, caller, grants, answer, places) && "" !in grants && caller.uid != ""
    ensures AnswersByToken(mac, nodes, caller, grants, answer, places)
  {
    forall i | 0 <= i < |nodes| && Packable(nodes[i].authz)
      ensures Unpack(mac, PackAD(mac, nodes[i].authz, caller.key), caller, grants, "r").Some? <==> i in places
    {
      SeenIffTokenGrantsRead(mac, nodes[i].authz, caller, grants);
    }
    forall k | 0 <= k < |answer| ensures Unpack(mac, answer[k].ad, caller, grants, "r").Some? {
      assert places[k] in places;
      SeenIffTokenGrantsRead(mac, nodes[places[k]].authz, caller, grants);
    }
  }

  /**
   * Nothing private leaves: anywhere in what a non-admin caller gets, private data stands only on nodes
   * that caller owns.
   */
  lemma {:induction false} ReturnedShowsOwnPrivateDataOnly(mac: Mac, nodes: seq<Tree>, caller: Caller,
                                                           grants: set<string>, k: nat, path: seq<nat>, sub: Tree)
    requires AllPackable(nodes)
    requires !caller.IsAdmin() && k < |Returned(mac, nodes, caller, grants)|
    requires At(Returned(mac, nodes, caller, grants)[k], path, sub)
    ensures sub.private.Some? ==> OwnedByCaller(caller, sub)
  {
    var front, last := nodes[..|nodes| - 1], nodes[|nodes| - 1];
    assert nodes == front + [last];
    ReturnedSnoc(mac, front, last, caller, grants);
    if k < |Returned(mac, front, caller, grants)| {
      ReturnedShowsOwnPrivateDataOnly(mac, front, caller, grants, k, path, sub);
    } else {
      StampedShowsOwnPrivateDataOnly(mac, last, caller, path, sub);
    }
  }

  lemma {:induction false} StampedShowsOwnPrivateDataOnly(mac: Mac, t: Tree, caller: Caller, path: seq<nat>, sub: Tree)
    requires TreePackable(t) && !caller.IsAdmin() && At(Stamped(mac, t, caller), path, sub)
    ensures sub.private.Some? ==> OwnedByCaller(caller, sub)
    decreases |path|
  {
    RedactKeepsPackable(t, Some(caller));
    if path != [] {
      StampedShowsOwnPrivateDataOnly(mac, t.edges[path[0]], caller, path[1..], sub);
    }
  }

  lemma StampedToken(mac: Mac, t: Tree, caller: Caller)
    requires TreePackable(t)
    ensures Stamped(mac, t, caller).ad == PackAD(mac, t.authz, caller.key)
  {
    RedactKeepsPackable(t, Some(caller));
  }

  /** Of one node: it stands in the answer exactly if the token stamped on it grants reading, but for that exception. */
  lemma ReturnedIffTokenGrantsRead(mac: Mac, t: Tree, caller: Caller, grants: set<string>)
    requires TreePackable(t) && "" !in grants
    ensures Unpack(mac, Stamped(mac, t, caller).ad, caller, grants, "r").Some?
       <==> Returned(mac, [t], caller, grants) == [Stamped(mac, t, caller)] || (t.authz.own.None? && caller.uid == "")
    ensures Returned(mac, [t], caller, grants) != [Stamped(mac, t, caller)] ==> Returned(mac, [t], caller, grants) == []
  {
    assert [t][..0] == [];
    ReadableSpelledOut(t, caller, grants);
    StampedToken(mac, t, caller);
    SeenIffTokenGrantsRead(mac, t.authz, caller, grants);
  }

  // ------------------------------------------------------------------------ result nodes

  /** A query's result node as the tree that is redacted: of its neighbours only the authz fields were asked for. */
  function TreeOf(r: QueryRun.ResultNode): Tree {
    Tree(AuthzOf(r.node), Lookup(r.node.data, QueryRun.PRIVATE_FIELD), r.node.data - {QueryRun.PRIVATE_FIELD}, "",
         seq(|r.edges|, i requires 0 <= i < |r.edges| => Neighbour(r.edges[i])))
  }

  function Neighbour(e: QueryRun.EdgeView): Tree { Tree(Authz(e.uid, e.own, e.sgi, e.bits), None, map[], "", []) }

  /** The redaction of result nodes is the redaction of trees. */
  lemma RedactionsAgree(caller: Caller, r: QueryRun.ResultNode)
    ensures TreeOf(QueryRun.Redact(caller, r)) == Redact(TreeOf(r), Some(caller))
  {
    var t := TreeOf(r);
    forall i | 0 <= i < |t.edges| ensures Redact(t.edges[i], Some(caller)) == t.edges[i] {
      assert t.edges[i] == Neighbour(r.edges[i]);
    }
    if !caller.IsAdmin() {
      assert Redact(t, Some(caller)).edges == t.edges;
      assert r.node.data - {QueryRun.PRIVATE_FIELD} - {QueryRun.PRIVATE_FIELD}
           == r.node.data - {QueryRun.PRIVATE_FIELD};
    }
  }

  // ------------------------------------------------------------- the response to a query

  function TreesOf(rs: seq<QueryRun.ResultNode>): (ts: seq<Tree>)
    ensures |ts| == |rs| && forall i :: 0 <= i < |rs| ==> ts[i] == TreeOf(rs[i])
  {
    seq(|rs|, i requires 0 <= i < |rs| => TreeOf(rs[i]))
  }

  /** What is stamped on a node that is already redacted. */
  function Packed(mac: Mac, ts: seq<Tree>, key: string): (ps: seq<Tree>)
    requires AllPackable(ts)
    ensures |ps| == |ts| && forall i :: 0 <= i < |ts| ==> ps[i] == Pack(mac, ts[i], key)
  {
    seq(|ts|, i requires 0 <= i < |ts| => Pack(mac, ts[i], key))
  }

  lemma {:induction false} RespondSnoc(caller: Caller, grants: set<string>, rs: seq<QueryRun.ResultNode>,
                                       r: QueryRun.ResultNode)
    ensures QueryRun.Respond(caller, grants, rs + [r])
         == QueryRun.Respond(caller, grants, rs) + QueryRun.RespondOne(caller, grants, r)
  {
    if rs == [] {
      QueryRun.RespondCons(caller, grants, r, []);
      assert [] + [r] == [r] + [];
    } else {
      var tail := rs[1..];
      RespondSnoc(caller, grants, tail, r);
      QueryRun.RespondCons(caller, grants, rs[0], tail);
      QueryRun.RespondCons(caller, grants, rs[0], tail + [r]);
      assert rs == [rs[0]] + tail;
      Reassociate([rs[0]], tail, [r]);
      Reassociate(QueryRun.RespondOne(caller, grants, rs[0]), QueryRun.Respond(caller, grants, tail),
                  QueryRun.RespondOne(caller, grants, r));
    }
  }

  lemma Reassociate<T>(a: seq<T>, b: seq<T>, c: seq<T>)
    ensures (a + b) + c == a + (b + c)
  {
  }

  lemma TreesSnoc(rs: seq<QueryRun.ResultNode>, r: QueryRun.ResultNode)
    ensures TreesOf(rs + [r]) == TreesOf(rs) + [TreeOf(r)]
  {
  }

  lemma PackedSnoc(mac: Mac, ts: seq<Tree>, t: Tree, key: string)
    requires AllPackable(ts) && TreePackable(t)
    ensures AllPackable(ts + [t]) && Packed(mac, ts + [t], key) == Packed(mac, ts, key) + [Pack(mac, t, key)]
  {
    var more, packed := ts + [t], Packed(mac, ts, key) + [Pack(mac, t, key)];
    assert AllPackable(more);
    forall i | 0 <= i < |more| ensures Packed(mac, more, key)[i] == packed[i] {
      if i < |ts| { assert more[i] == ts[i]; }
    }
  }

  /** The response of a query run is this response: the same nodes, redacted alike, with tokens stamped on them. */
  lemma {:induction false} RespondIsReturned(mac: Mac, caller: Caller, grants: set<string>,
                                             rs: seq<QueryRun.ResultNode>)
    requires AllPackable(TreesOf(rs))
    ensures AllPackable(TreesOf(QueryRun.Respond(caller, grants, rs)))
    ensures Returned(mac, TreesOf(rs), caller, grants)
         == Packed(mac, TreesOf(QueryRun.Respond(caller, grants, rs)), caller.key)
  {
    if rs != [] {
      var front, last := rs[..|rs| - 1], rs[|rs| - 1];
      assert rs == front + [last];
      TreesSnoc(front, last);
      PackableParts(TreesOf(front), TreeOf(last));
      RespondIsReturned(mac, caller, grants, front);
      RespondSnoc(caller, grants, front, last);
      LastReturned(mac, caller, grants, TreesOf(front), last, QueryRun.Respond(caller, grants, front));
    }
  }

  lemma PackableParts(ts: seq<Tree>, t: Tree)
    requires AllPackable(ts + [t])
    ensures AllPackable(ts) && TreePackable(t)
  {
    assert (ts + [t])[|ts|] == t;
    forall i | 0 <= i < |ts| ensures TreePackable(ts[i]) { assert (ts + [t])[i] == ts[i]; }
  }

  lemma LastReturned(mac: Mac, caller: Caller, grants: set<string>, front: seq<Tree>, last: QueryRun.ResultNode,
                     responded: seq<QueryRun.ResultNode>)
    requires AllPackable(front) && TreePackable(TreeOf(last)) && AllPackable(TreesOf(responded))
    requires Returned(mac, front, caller, grants) == Packed(mac, TreesOf(responded), caller.key)
    ensures AllPackable(front + [TreeOf(last)])
    ensures var more := responded + QueryRun.RespondOne(caller, grants, last);
      && AllPackable(TreesOf(more))
      && Returned(mac, front + [TreeOf(last)], caller, grants) == Packed(mac, TreesOf(more), caller.key)
  {
    ReturnedSnoc(mac, front, TreeOf(last), caller, grants);
    assert Readable(caller, grants, TreeOf(last)) <==> MayRead(caller, grants, last.node);
    if MayRead(caller, grants, last.node) {
      RedactionsAgree(caller, last);
      RedactKeepsPackable(TreeOf(last), Some(caller));
      TreesSnoc(responded, QueryRun.Redact(caller, last));
      PackedSnoc(mac, TreesOf(responded), TreeOf(QueryRun.Redact(caller, last)), caller.key);
    } else {
      assert responded + [] == responded;
    }
  }
}
