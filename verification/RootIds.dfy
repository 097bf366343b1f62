/** Where a query may start (requests/query.go): root uids proved by tokens, root queries for sys only. */
module RootIds {
  import opened Graph
  import opened AuthzData
  import opened Edges

  /** The caller may start at this node with the required permissions: one of the tokens says so. */
  ghost predicate MayStart(mac: Mac, ads: seq<string>, caller: Caller, grants: set<string>, required: string,
                           uid: string)
  {
    exists k :: 0 <= k < |ads| && StartsBy(mac, ads[k], caller, grants, required, uid)
  }

  predicate StartsBy(mac: Mac, ad: string, caller: Caller, grants: set<string>, required: string, uid: string) {
    var a := NodeFromAD(mac, ad, caller.key);
    a.Some? && a.value.uid == uid && Grants(a.value, caller, grants, required)
  }

  /**
   * `QueryRequest.AuthzDataUnpack`: only sys may bring a root query; every root token must grant the
   * required permissions and is then replaced in place by its uid; no root ids at all are allowed.
   */
  method AuthzDataUnpack(mac: Mac, rootIds: array<string>, hasRootQuery: bool, caller: Caller, grants: set<string>,
                         required: string)
      returns (ok: bool)
    modifies rootIds
    ensures ok
       <==> (caller.role == SYS_ROLE || !hasRootQuery) && AllUnpack(mac, old(rootIds[..]), caller, grants, required)
    ensures ok ==> ProvenUids(mac, old(rootIds[..]), caller, grants, required, rootIds[..])
    ensures ok ==>
      forall k :: 0 <= k < rootIds.Length ==> MayStart(mac, old(rootIds[..]), caller, grants, required, rootIds[k])
  {
    if caller.role != SYS_ROLE && hasRootQuery {
      return false;
    }
    ok := UnpackOptional(mac, rootIds, caller, grants, required);
    if ok {
      StartsAreProven(mac, old(rootIds[..]), caller, grants, required, rootIds[..]);
    }
  }

  lemma StartsAreProven(mac: Mac, ads: seq<string>, caller: Caller, grants: set<string>, required: string,
                        uids: seq<string>)
    requires ProvenUids(mac, ads, caller, grants, required, uids)
    ensures forall k :: 0 <= k < |uids| ==> MayStart(mac, ads, caller, grants, required, uids[k])
  {
    forall k | 0 <= k < |uids| ensures MayStart(mac, ads, caller, grants, required, uids[k]) {
      UnpackedProves(mac, ads[k], caller, grants, required);
      assert StartsBy(mac, ads[k], caller, grants, required, uids[k]);
    }
  }
}
