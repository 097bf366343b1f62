/** Granting and revoking share groups when nodes are shared (api/user.go). */
module Sharing {
  import opened Graph
  import opened Text
  import opened AuthzData
  import opened Session

  /** A nil dereference; the caller's goroutine dies before the session manager hears of anything. */
  datatype Update = Done | NilDereference

  predicate OwnedBy(node: Authz, uid: string) { node.own == Some(uid) }

  predicate Shared(node: Authz, uid: string) {
    !OwnedBy(node, uid) && node.bits.r == Some(true) && node.sgi.Some?
  }

  /** The share groups of the readable nodes that the user does not own. */
  function SharedSgis(nl: seq<Authz>, uid: string): set<string> {
    set k | 0 <= k < |nl| && Shared(nl[k], uid) :: nl[k].sgi.value
  }

  /** The non-empty comma-separated pieces of some texts. */
  function Pieces(texts: set<string>): set<string> {
    set text, p | text in texts && p in Split(text, ',') && p != "" :: p
  }

  /** A comma-free text is its own only piece, so for such texts nothing is split or lost. */
  lemma PiecesOfCommaFree(texts: set<string>)
    requires forall text :: text in texts ==> ',' !in text
    ensures Pieces(texts) == texts - {""}
  {
    forall text | text in texts ensures Split(text, ',') == [text] {
      SplitNone(text, ',');
    }
    forall p | p in texts && p != "" ensures p in Pieces(texts) {
      assert Split(p, ',') == [p];
      assert p in Split(p, ',');
    }
    forall p | p in Pieces(texts) ensures p in texts {
      var text :| text in texts && p in Split(text, ',');
      assert Split(text, ',') == [text];
    }
  }

  lemma PiecesStep(texts: set<string>, text: string)
    ensures Pieces(texts + {text}) == Pieces(texts) + Named(text)
  {
  }

  lemma {:induction false} NamedAppend(list: string, text: string)
    requires list == "" || list[|list| - 1] == ','
    ensures Named(list + text + ",") == Named(list) + Named(text)
  {
    SplitAround(text, ',', "");
    if list == "" {
      assert list + text + "," == text + [','] + "";
    } else {
      var front := list[..|list| - 1];
      assert list + text + "," == front + [','] + (text + [','] + "");
      SplitAround(front, ',', text + [','] + "");
      assert list == front + [','] + "";
      SplitAround(front, ',', "");
    }
  }

  /** The users' allowlist after adding or removing some share groups. */
  function Updated(s: State, allow: bool, uid: string, sgis: set<string>): set<string> {
    if uid == "" then Of(s.allow, uid)
    else if allow then Of(s.allow, uid) + sgis
    else Of(s.allow, uid) - sgis
  }

  /** After the update: one user's list is as given, everybody else's and every token as before. */
  ghost predicate OnlyListChanged(before: State, after: State, uid: string, list: set<string>) {
    && Of(after.allow, uid) == list
    && after.tokens == before.tokens
    && forall u :: u != uid ==> Of(after.allow, u) == Of(before.allow, u)
  }

  lemma OneMessageUpdates(s: State, allow: bool, uid: string, text: string)
    ensures OnlyListChanged(s, Next(s, Message(if allow then SgiAllow else SgiRevoke, uid, text)), uid,
                            Updated(s, allow, uid, Named(text)))
  {
    if allow {
      assert Next(s, Message(SgiAllow, uid, text)).tokens == s.tokens;
    } else {
      assert Next(s, Message(SgiRevoke, uid, text)).tokens == s.tokens;
    }
  }

  /** A node whose null read bit the loop would dereference. */
  predicate Unreadied(node: Authz, uid: string) { !OwnedBy(node, uid) && node.bits.r.None? }

  /**
   * `UpdateAllowListSharedSgis`. It dies on a node with a null read bit that the user does not own.
   * Otherwise exactly the pieces of the shared groups are granted or revoked, in whatever order the
   * set is walked, and nobody else's list and no token is touched.
   */
  method UpdateAllowListSharedSgis(allow: bool, uid: string, nl: seq<Authz>, usm: SessionManager) returns (res: Update)
    modifies usm
    ensures res.NilDereference? <==> exists k :: 0 <= k < |nl| && Unreadied(nl[k], uid)
    ensures res.NilDereference? ==> usm.Abs() == old(usm.Abs())
    ensures res.Done? ==>
      OnlyListChanged(old(usm.Abs()), usm.Abs(), uid, Updated(old(usm.Abs()), allow, uid, Pieces(SharedSgis(nl, uid))))
  {
    var sgiSet := {};
    for k := 0 to |nl|
      modifies {}
      invariant sgiSet == SharedSgis(nl[..k], uid)
      invariant forall i :: 0 <= i < k ==> !Unreadied(nl[i], uid)
    {
      var node := nl[k];
      assert nl[..k + 1][..k] == nl[..k];
      SharedSgisStep(nl[..k + 1], uid);
      if node.own.Some? && node.own.value == uid {
        continue;
      }
      if node.bits.r.None? {
        assert Unreadied(nl[k], uid);
        return NilDereference;
      }
      if node.bits.r.value && node.sgi.Some? {
        sgiSet := sgiSet + {node.sgi.value};
      }
    }
    assert nl[..|nl|] == nl;

    var sgiList := ListText(sgiSet);
    OneMessageUpdates(usm.Abs(), allow, uid, sgiList);
    if sgiList != "" {
      var _ := usm.Handle(Message(if allow then SgiAllow else SgiRevoke, uid, sgiList));
    }
    res := Done;
  }

  /** The comma-terminated list of a set's members, in whatever order they come. */
  method ListText(sgiSet: set<string>) returns (sgiList: string)
    ensures Named(sgiList) == Pieces(sgiSet)
  {
    sgiList := "";
    var rest := sgiSet;
    while rest != {}
      invariant rest <= sgiSet
      invariant sgiList == "" || sgiList[|sgiList| - 1] == ','
      invariant Named(sgiList) == Pieces(sgiSet - rest)
      decreases |rest|
    {
      var key :| key in rest;
      NamedAppend(sgiList, key);
      PiecesStep(sgiSet - rest, key);
      assert sgiSet - (rest - {key}) == (sgiSet - rest) + {key};
      sgiList := sgiList + key + ",";
      rest := rest - {key};
    }
    assert sgiSet - {} == sgiSet;
  }

  lemma SharedSgisStep(nl: seq<Authz>, uid: string)
    requires nl != []
    ensures SharedSgis(nl, uid)
         == SharedSgis(nl[..|nl| - 1], uid) + if Shared(nl[|nl| - 1], uid) then {nl[|nl| - 1].sgi.value} else {}
  {
    var n := |nl| - 1;
    forall k | 0 <= k < n ensures nl[..n][k] == nl[k] {}
    assert forall x :: x in SharedSgis(nl[..n], uid) ==> x in SharedSgis(nl, uid);
  }

  /**
   * Which accepted nodes a share request dies on: those that ownership or role let through, that the
   * other user does not own and that are not readable. The path through a share group is safe.
   */
  lemma ShareDiesExactlyOn(mac: Mac, ad: string, caller: Caller, grants: set<string>, target: string)
    requires Unpack(mac, ad, caller, grants, "s").Some?
    ensures var n := Unpack(mac, ad, caller, grants, "s").value;
      Unreadied(n, target)
      <==> n.own != Some(target) && (n.own == Some(caller.uid) || caller.role == SYS_ROLE) && !IsSet(n.bits.r)
  {
    var required := "s";
    assert required != "";
  }

  /** So an owner cannot share a node of theirs that lacks the read bit, though its token is accepted. */
  lemma OwnUnreadableNodeKillsShare(mac: Mac, a: Authz, caller: Caller, grants: set<string>, target: string)
    requires Packable(a) && a.own == Some(caller.uid) && !IsSet(a.bits.r) && target != caller.uid
    ensures var n := Unpack(mac, PackAD(mac, a, caller.key), caller, grants, "s");
      n.Some? && SameAuthz(n.value, a) && Unreadied(n.value, target)
  {
    PackUnpack(mac, a, caller, grants, "s");
    ShareDiesExactlyOn(mac, PackAD(mac, a, caller.key), caller, grants, target);
  }
}
