/**
 * "PUT share" and "PATCH share" (api/user.go): the tokens of nodes and users, the share edges and the
 * allowlists, in the order in which the handler touches them.
 */
module ShareRequest {
  import opened Graph
  import opened AuthzData
  import opened Session
  import opened Sharing
  import Edges

  // ------------------------------------------------------------------------ the tokens

  /** What verifies behind some tokens. */
  function Texts(mac: Mac, ads: seq<string>, key: string): (ts: seq<string>)
    ensures |ts| == |ads| && forall k :: 0 <= k < |ads| ==> ts[k] == DecodeAndVerifyAD(mac, ads[k], key)
  {
    seq(|ads|, k requires 0 <= k < |ads| => DecodeAndVerifyAD(mac, ads[k], key))
  }

  predicate AllVerify(mac: Mac, ads: seq<string>, key: string) {
    |ads| > 0 && forall k :: 0 <= k < |ads| ==> DecodeAndVerifyAD(mac, ads[k], key) != ""
  }

  /** `AuthzDataUnpackUserADStringSlice`: each token is overwritten by the text behind it; nobody asks what it says. */
  method UnpackUsers(mac: Mac, ads: array<string>, key: string) returns (ok: bool)
    modifies ads
    ensures ok <==> AllVerify(mac, old(ads[..]), key)
    ensures ok ==> ads[..] == Texts(mac, old(ads[..]), key)
  {
    ghost var was, texts := ads[..], Texts(mac, ads[..], key);
    if ads.Length == 0 { return false; }
    for i := 0 to ads.Length
      invariant forall k :: i <= k < ads.Length ==> ads[k] == was[k]
      invariant forall k :: 0 <= k < i ==> ads[k] == texts[k] != ""
    {
      var adStr := DecodeAndVerifyAD(mac, ads[i], key);
      assert adStr == texts[i];
      if adStr == "" { return false; }
      ads[i] := adStr;
    }
    ok := true;
  }

  /** The text of a user who is not sys. */
  predicate PlainUser(text: string) { UserFromText(text).Some? && UserFromText(text).value.1 != SYS_ROLE }

  predicate PlainUpTo(texts: seq<string>, n: nat)
    requires n <= |texts|
  {
    forall k :: 0 <= k < n ==> PlainUser(texts[k])
  }

  /** Why no list of users comes of some texts. */
  datatype Lookup = Found | IsSys | NilUser

  function UserUids(texts: seq<string>): (uids: seq<string>)
    requires PlainUpTo(texts, |texts|)
    ensures |uids| == |texts| && forall k :: 0 <= k < |texts| ==> uids[k] == UserFromText(texts[k]).value.0
  {
    seq(|texts|, k requires 0 <= k < |texts| => UserFromText(texts[k]).value.0)
  }

  /** The handler's first loop. The first text that is not a plain user's decides. */
  method UsersToShareWith(texts: seq<string>) returns (found: Lookup, uids: seq<string>)
    ensures found.Found? <==> PlainUpTo(texts, |texts|)
    ensures found.Found? ==> uids == UserUids(texts)
    ensures !found.Found? ==> FirstOther(texts, found)
  {
    uids := [];
    for k := 0 to |texts|
      invariant |uids| == k && PlainUpTo(texts, k)
      invariant forall j :: 0 <= j < k ==> uids[j] == UserFromText(texts[j]).value.0
    {
      var u := UserFromText(texts[k]);
      if u.None? {
        assert FirstOtherAt(texts, k, NilUser);
        return NilUser, uids;
      }
      if u.value.1 == SYS_ROLE {
        assert FirstOtherAt(texts, k, IsSys);
        return IsSys, uids;
      }
      uids := uids + [u.value.0];
    }
    found := Found;
  }

  /** What the first text that is no plain user's leads to. */
  ghost predicate FirstOther(texts: seq<string>, found: Lookup) {
    exists k :: 0 <= k < |texts| && FirstOtherAt(texts, k, found)
  }

  predicate FirstOtherAt(texts: seq<string>, k: nat, found: Lookup)
    requires k < |texts|
  {
    PlainUpTo(texts, k) && !PlainUser(texts[k]) && found == if UserFromText(texts[k]).None? then NilUser else IsSys
  }

  // --------------------------------------------------------------------- the allowlists

  /** Every user so far has the groups of the nodes added to or taken from their list, and nobody else's changed. */
  ghost predicate ListsUpdated(before: State, after: State, allow: bool, users: seq<string>, nodes: seq<Authz>) {
    && after.tokens == before.tokens
    && forall u :: Of(after.allow, u)
         == if u in users then Updated(before, allow, u, Pieces(SharedSgis(nodes, u))) else Of(before.allow, u)
  }

  /** Updating a list twice is updating it once. */
  lemma UpdatedTwice(before: State, mid: State, allow: bool, u: string, sgis: set<string>)
    requires Of(mid.allow, u) == Of(before.allow, u) || Of(mid.allow, u) == Updated(before, allow, u, sgis)
    ensures Updated(mid, allow, u, sgis) == Updated(before, allow, u, sgis)
  {
  }

  lemma OneMoreUser(before: State, mid: State, after: State, allow: bool, users: seq<string>, u: string,
                    nodes: seq<Authz>)
    requires ListsUpdated(before, mid, allow, users, nodes)
    requires OnlyListChanged(mid, after, u, Updated(mid, allow, u, Pieces(SharedSgis(nodes, u))))
    ensures ListsUpdated(before, after, allow, users + [u], nodes)
  {
    UpdatedTwice(before, mid, allow, u, Pieces(SharedSgis(nodes, u)));
  }

  /** Some node's null read bit would be dereferenced for this user. */
  ghost predicate DiesFor(nodes: seq<Authz>, u: string) { exists i :: 0 <= i < |nodes| && Unreadied(nodes[i], u) }

  /** The handler's last loop: user by user, up to the first for whom it dies. */
  method UpdateLists(allow: bool, users: seq<string>, nodes: seq<Authz>, usm: SessionManager)
      returns (res: Update, ghost done: nat)
    modifies usm
    ensures done <= |users| && ListsUpdated(old(usm.Abs()), usm.Abs(), allow, users[..done], nodes)
    ensures forall k :: 0 <= k < done ==> !DiesFor(nodes, users[k])
    ensures if res.Done? then done == |users| else done < |users| && DiesFor(nodes, users[done])
  {
    ghost var before := usm.Abs();
    done := 0;
    for k := 0 to |users|
      invariant done == k && ListsUpdated(before, usm.Abs(), allow, users[..k], nodes)
      invariant forall j :: 0 <= j < k ==> !DiesFor(nodes, users[j])
    {
      ghost var mid := usm.Abs();
      res := UpdateAllowListSharedSgis(allow, users[k], nodes, usm);
      if res.NilDereference? { return; }
      OneMoreUser(before, mid, usm.Abs(), allow, users[..k], users[k], nodes);
      assert users[..k + 1] == users[..k] + [users[k]];
      done := k + 1;
    }
    res := Done;
  }

  /**
   * "POST nodes" with `shared`, on what the database answers: the groups of the readable ones go to the
   * caller's list. The read bits are those that are stored, so it panics exactly if the caller is not sys
   * and one of the nodes, not their own, was stored without a read bit.
   */
  method PostSharedNodes(caller: Caller, resultNodes: seq<Authz>, usm: SessionManager) returns (res: Update)
    modifies usm
    ensures res.NilDereference? <==> !caller.IsAdmin() && DiesFor(resultNodes, caller.uid)
    ensures caller.IsAdmin() || res.NilDereference? ==> usm.Abs() == old(usm.Abs())
    ensures !caller.IsAdmin() && res.Done? ==>
      OnlyListChanged(old(usm.Abs()), usm.Abs(), caller.uid,
                      Updated(old(usm.Abs()), true, caller.uid, Pieces(SharedSgis(resultNodes, caller.uid))))
  {
    res := Done;
    if !caller.IsAdmin() {
      res := UpdateAllowListSharedSgis(true, caller.uid, resultNodes, usm);
    }
  }

  // ------------------------------------------------------------------------- the request

  /** Dgraph, as far as share edges go. */
  class Database {
    var shared: set<Edges.Edge>

    /** `UpdateUserShareEdges`: an edge from every user to every node, if the database answers. */
    method UpdateUserShareEdges(nodes: seq<string>, users: seq<string>, change: Edges.Change, answered: bool)
      modifies this
      ensures shared == if !answered then old(shared)
                        else if change == Edges.Add then old(shared) + Edges.Cross(users, nodes)
                        else old(shared) - Edges.Cross(users, nodes)
    {
      if answered {
        var cross := Edges.Cross(users, nodes);
        shared := if change == Edges.Add then shared + cross else shared - cross;
      }
    }
  }

  datatype Reply = BadRequest | NotFound | Shared | Panicked

  /** Which requests get past their binding: every node's token grants "s", and every user's text verifies. */
  predicate Binds(mac: Mac, nodeAds: seq<string>, userAds: seq<string>, caller: Caller, grants: set<string>) {
    |nodeAds| > 0 && Edges.AllUnpack(mac, nodeAds, caller, grants, "s") && AllVerify(mac, userAds, caller.key)
  }

  predicate PlainUsers(mac: Mac, userAds: seq<string>, key: string) { PlainUpTo(Texts(mac, userAds, key), |userAds|) }

  /** The uids in some users' tokens. */
  function UsersIn(mac: Mac, userAds: seq<string>, key: string): seq<string>
    requires PlainUsers(mac, userAds, key)
  {
    UserUids(Texts(mac, userAds, key))
  }

  function NodesIn(mac: Mac, nodeAds: seq<string>, caller: Caller, grants: set<string>): (nodes: seq<Authz>)
    requires Edges.AllUnpack(mac, nodeAds, caller, grants, "s")
    ensures |nodes| == |nodeAds|
    ensures forall k :: 0 <= k < |nodeAds| ==> Unpack(mac, nodeAds[k], caller, grants, "s") == Some(nodes[k])
  {
    seq(|nodeAds|, k requires 0 <= k < |nodeAds| => Unpack(mac, nodeAds[k], caller, grants, "s").value)
  }

  function UidsOfNodes(nodes: seq<Authz>): (uids: seq<string>)
    ensures |uids| == |nodes| && forall k :: 0 <= k < |nodes| ==> uids[k] == nodes[k].uid
  {
    seq(|nodes|, k requires 0 <= k < |nodes| => nodes[k].uid)
  }

  /** The share edges after the request. */
  function EdgesAfter(shared: set<Edges.Edge>, change: Edges.Change, answered: bool, users: seq<string>,
                      nodes: seq<Authz>): set<Edges.Edge>
  {
    if !answered then shared
    else if change == Edges.Add then shared + Edges.Cross(users, UidsOfNodes(nodes))
    else shared - Edges.Cross(users, UidsOfNodes(nodes))
  }

  /** Who may share a node: its owner, sys, or somebody with its group where the share bit is set. */
  predicate MayShare(a: Authz, caller: Caller, grants: set<string>) {
    a.own == Some(caller.uid) || caller.role == "sys" || (OrEmpty(a.sgi) in grants && a.bits.s == Some(true))
  }

  predicate SharableBy(mac: Mac, ad: string, caller: Caller, grants: set<string>) {
    NodeFromAD(mac, ad, caller.key).Some? && MayShare(NodeFromAD(mac, ad, caller.key).value, caller, grants)
  }

  lemma SharableExactly(mac: Mac, ad: string, caller: Caller, grants: set<string>)
    ensures Unpack(mac, ad, caller, grants, "s").Some? <==> SharableBy(mac, ad, caller, grants)
  {
    if NodeFromAD(mac, ad, caller.key).Some? {
      GrantsSpelledOut(NodeFromAD(mac, ad, caller.key).value, caller, grants);
    }
  }

  /**
   * Which share requests get past their binding: those that name nodes and users where every node's token is for
   * a node that the caller may share and every user's token verifies.
   */
  lemma BindsExactly(mac: Mac, nodeAds: seq<string>, userAds: seq<string>, caller: Caller, grants: set<string>)
    ensures Binds(mac, nodeAds, userAds, caller, grants)
       <==> && nodeAds != [] && userAds != []
            && (forall k :: 0 <= k < |nodeAds| ==> SharableBy(mac, nodeAds[k], caller, grants))
            && (forall k :: 0 <= k < |userAds| ==> DecodeAndVerifyAD(mac, userAds[k], caller.key) != "")
  {
    forall k | 0 <= k < |nodeAds|
      ensures Unpack(mac, nodeAds[k], caller, grants, "s").Some? <==> SharableBy(mac, nodeAds[k], caller, grants)
    {
      SharableExactly(mac, nodeAds[k], caller, grants);
    }
  }

  /** The share edges between these users and nodes are there after sharing and gone after un-sharing, no other. */
  ghost predicate SharedExactly(before: set<Edges.Edge>, after: set<Edges.Edge>, change: Edges.Change,
                                users: seq<string>, nodes: seq<string>)
  {
    forall u, n ::
      if u in users && n in nodes then (u, n) in after <==> change == Edges.Add
      else (u, n) in after <==> (u, n) in before
  }

  lemma EdgesAfterExactly(shared: set<Edges.Edge>, change: Edges.Change, users: seq<string>, nodes: seq<Authz>)
    ensures SharedExactly(shared, EdgesAfter(shared, change, true, users, nodes), change, users, UidsOfNodes(nodes))
    ensures EdgesAfter(shared, change, false, users, nodes) == shared
  {
    var uids := UidsOfNodes(nodes);
    forall u, n ensures (u, n) in Edges.Cross(users, uids) <==> u in users && n in uids {
      Edges.CrossMember(users, uids, (u, n));
    }
  }

  predicate NamesNotSys(text: string) { UserFromText(text).Some? && UserFromText(text).value.1 != "sys" }

  /** Every text names a user, and none of them is sys. */
  predicate NotSys(mac: Mac, userAds: seq<string>, key: string) {
    forall k :: 0 <= k < |userAds| ==> NamesNotSys(DecodeAndVerifyAD(mac, userAds[k], key))
  }

  lemma PlainIsNotSys(text: string)
    ensures PlainUser(text) <==> NamesNotSys(text)
  {
  }

  lemma PlainUsersAreNotSys(mac: Mac, userAds: seq<string>, key: string)
    ensures PlainUsers(mac, userAds, key) <==> NotSys(mac, userAds, key)
  {
    var texts := Texts(mac, userAds, key);
    forall k | 0 <= k < |userAds|
      ensures PlainUser(texts[k]) <==> NamesNotSys(DecodeAndVerifyAD(mac, userAds[k], key))
    {
      PlainIsNotSys(texts[k]);
    }
  }

  /** The request's binding: nodes first, then users. */
  method Bind(mac: Mac, nodeAds: array<string>, userAds: array<string>, caller: Caller, grants: set<string>)
      returns (ok: bool, nodes: seq<Authz>)
    requires nodeAds != userAds
    modifies nodeAds, userAds
    ensures ok <==> Binds(mac, old(nodeAds[..]), old(userAds[..]), caller, grants)
    ensures ok ==> nodes == NodesIn(mac, old(nodeAds[..]), caller, grants) && nodeAds[..] == UidsOfNodes(nodes)
    ensures ok ==> userAds[..] == Texts(mac, old(userAds[..]), caller.key)
  {
    ok, nodes := UnpackSlice(mac, nodeAds, caller, grants, "s");
    if !ok {
      SomeRefused(mac, old(nodeAds[..]), nodes, caller, grants);
      return;
    }
    AllAccepted(mac, old(nodeAds[..]), nodes, caller, grants);
    assert nodeAds[..] == UidsOfNodes(nodes);
    ok := UnpackUsers(mac, userAds, caller.key);
  }

  /** What a share request does once it is bound: with the users' uids, the node's edges and the users' lists. */
  ghost predicate SharedWith(users: seq<string>, nodes: seq<Authz>, change: Edges.Change, answered: bool,
                             edges: set<Edges.Edge>, edgesAfter: set<Edges.Edge>, before: State, after: State,
                             r: Reply, done: nat)
  {
    && edgesAfter == EdgesAfter(edges, change, answered, users, nodes)
    && done <= |users| && ListsUpdated(before, after, change == Edges.Add, users[..done], nodes)
    && (forall k :: 0 <= k < done ==> !DiesFor(nodes, users[k]))
    && if r.Shared? then done == |users| else r.Panicked? && done < |users| && DiesFor(nodes, users[done])
  }

  /** The handler after the binding. */
  method ShareBound(texts: seq<string>, nodeUids: seq<string>, nodes: seq<Authz>, change: Edges.Change, db: Database,
                    usm: SessionManager, answered: bool) returns (r: Reply, ghost done: nat)
    requires nodeUids == UidsOfNodes(nodes)
    modifies db, usm
    ensures !r.BadRequest?
    ensures !PlainUpTo(texts, |texts|) ==> db.shared == old(db.shared) && usm.Abs() == old(usm.Abs())
    ensures !PlainUpTo(texts, |texts|) ==> FirstOther(texts, if r.Panicked? then NilUser else IsSys) && !r.Shared?
    ensures PlainUpTo(texts, |texts|) ==>
      SharedWith(UserUids(texts), nodes, change, answered, old(db.shared), db.shared, old(usm.Abs()), usm.Abs(),
                 r, done)
  {
    var found, usersToShareWith := UsersToShareWith(texts);
    if found.NilUser? { return Panicked, 0; }
    if found.IsSys? { return NotFound, 0; }
    db.UpdateUserShareEdges(nodeUids, usersToShareWith, change, answered);
    var res;
    res, done := UpdateLists(change == Edges.Add, usersToShareWith, nodes, usm);
    r := if res.Done? then Shared else Panicked;
  }

  /**
   * "PUT share" (`change` is `Add`) and "PATCH share" (`Delete`). A request that does not bind, or names
   * somebody who is not a plain user, changes nothing; the latter panics if the first such text is no
   * user's at all. Any other request changes exactly the edges users x nodes, if the database answers, and
   * then, answered or not, the users' allowlists one after the other. It panics exactly if for some user
   * there is a node whose null read bit is looked at, with the edges written and the lists of the users
   * before that one updated.
   */
  method HandleShare(mac: Mac, nodeAds: array<string>, userAds: array<string>, caller: Caller, grants: set<string>,
                     change: Edges.Change, db: Database, usm: SessionManager, answered: bool)
      returns (r: Reply, ghost done: nat)
    requires nodeAds != userAds
    modifies nodeAds, userAds, db, usm
    ensures r.BadRequest? <==> !Binds(mac, old(nodeAds[..]), old(userAds[..]), caller, grants)
    ensures r.BadRequest? || !PlainUsers(mac, old(userAds[..]), caller.key) ==>
      db.shared == old(db.shared) && usm.Abs() == old(usm.Abs())
    ensures !r.BadRequest? && !PlainUsers(mac, old(userAds[..]), caller.key) ==>
      !r.Shared? && FirstOther(Texts(mac, old(userAds[..]), caller.key), if r.Panicked? then NilUser else IsSys)
    ensures !r.BadRequest? && PlainUsers(mac, old(userAds[..]), caller.key) ==>
      SharedWith(UsersIn(mac, old(userAds[..]), caller.key), NodesIn(mac, old(nodeAds[..]), caller, grants),
                 change, answered, old(db.shared), db.shared, old(usm.Abs()), usm.Abs(), r, done)
    ensures r.Shared? ==> NotSys(mac, old(userAds[..]), caller.key)
    ensures r.Shared? && answered ==>
      SharedExactly(old(db.shared), db.shared, change, UsersIn(mac, old(userAds[..]), caller.key),
                    UidsOfNodes(NodesIn(mac, old(nodeAds[..]), caller, grants)))
  {
    ghost var shared, nads, uads := db.shared, nodeAds[..], userAds[..];
    var ok, nodes := Bind(mac, nodeAds, userAds, caller, grants);
    if !ok { return BadRequest, 0; }
    r, done := ShareBound(userAds[..], nodeAds[..], nodes, change, db, usm, answered);
    if r.Shared? {
      PlainUsersAreNotSys(mac, uads, caller.key);
      EdgesAfterExactly(shared, change, UsersIn(mac, uads, caller.key), nodes);
    }
  }

  lemma AllAccepted(mac: Mac, ads: seq<string>, nodes: seq<Authz>, caller: Caller, grants: set<string>)
    requires |nodes| == |ads| && forall k :: 0 <= k < |ads| ==>
      Unpack(mac, ads[k], caller, grants, "s") == Some(nodes[k])
    ensures Edges.AllUnpack(mac, ads, caller, grants, "s") && nodes == NodesIn(mac, ads, caller, grants)
  {
  }

  lemma SomeRefused(mac: Mac, ads: seq<string>, nodes: seq<Authz>, caller: Caller, grants: set<string>)
    requires |ads| > 0 ==> |nodes| < |ads| && Unpack(mac, ads[|nodes|], caller, grants, "s") == None
    ensures |ads| == 0 || !Edges.AllUnpack(mac, ads, caller, grants, "s")
  {
  }

  /** A node's token among the users verifies, but is nobody's: such a request panics, before anything is written. */
  lemma NodeTokenIsNoUser(mac: Mac, a: Authz, key: string)
    requires Packable(a)
    ensures AllVerify(mac, [PackAD(mac, a, key)], key)
    ensures FirstOther(Texts(mac, [PackAD(mac, a, key)], key), NilUser)
  {
    AdTextParts(a);
    VerifyOwn(mac, AdText(a), key);
    KindsNeverConfused(a, "", "");
    OnlyTextIsNoUser(mac, PackAD(mac, a, key), key, AdText(a));
  }

  lemma OnlyTextIsNoUser(mac: Mac, ad: string, key: string, text: string)
    requires DecodeAndVerifyAD(mac, ad, key) == text != "" && UserFromText(text).None?
    ensures AllVerify(mac, [ad], key) && FirstOther(Texts(mac, [ad], key), NilUser)
  {
    var texts := Texts(mac, [ad], key);
    assert texts[0] == text;
    assert FirstOtherAt(texts, 0, NilUser);
  }

  /** The owner of a node that lacks the read bit gets as far as the edges, and no further. */
  lemma OwnUnreadableNodeDies(mac: Mac, a: Authz, caller: Caller, grants: set<string>, target: string)
    requires Packable(a) && a.own == Some(caller.uid) && !IsSet(a.bits.r) && target != caller.uid
    ensures var ads := [PackAD(mac, a, caller.key)];
      Edges.AllUnpack(mac, ads, caller, grants, "s") && DiesFor(NodesIn(mac, ads, caller, grants), target)
  {
    OwnUnreadableNodeKillsShare(mac, a, caller, grants, target);
    var ads := [PackAD(mac, a, caller.key)];
    assert Unreadied(NodesIn(mac, ads, caller, grants)[0], target);
  }
}
