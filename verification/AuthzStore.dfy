/** What mutations do to the stored owner, share group and bits of nodes (services/db.go). */
module AuthzStore {
  import opened Graph
  import opened Upsert
  import opened AuthzData

  /** An entry that carries no authz field, such as an edge's end. */
  predicate NoFields(item: Item) { item.own.None? && item.sgi.None? && item.bits == NO_BITS }

  lemma PutNothing(store: Store, assign: string -> string, item: Item)
    requires NoFields(item) && Address(assign, item.uid) in store
    ensures Put(store, assign, item) == store
  {
    var uid := Address(assign, item.uid);
    assert Merged(store[uid], item) == store[uid];
  }

  /** Entries without authz fields on stored nodes change none. */
  lemma {:induction false} PutAllNothing(store: Store, assign: string -> string, items: seq<Item>)
    requires forall i :: 0 <= i < |items| ==> NoFields(items[i]) && Address(assign, items[i].uid) in store
    ensures PutAll(store, assign, items) == store
  {
    if items != [] {
      PutAllNothing(store, assign, items[..|items| - 1]);
      PutNothing(store, assign, items[|items| - 1]);
    }
  }

  /** The entries are new nodes, each with a uid of its own that is not in use. */
  ghost predicate AllNew(store: Store, assign: string -> string, items: seq<Item>) {
    && (forall i :: 0 <= i < |items| ==> Address(assign, items[i].uid) !in store)
    && (forall i, k :: 0 <= i < k < |items| ==> Address(assign, items[i].uid) != Address(assign, items[k].uid))
  }

  function NewRecord(assign: string -> string, item: Item): Authz {
    Authz(Address(assign, item.uid), item.own, item.sgi, item.bits)
  }

  /** What is stored of new nodes. */
  function Records(assign: string -> string, items: seq<Item>): Store {
    if items == [] then map[]
    else
      var last := items[|items| - 1];
      Records(assign, items[..|items| - 1])[Address(assign, last.uid) := NewRecord(assign, last)]
  }

  lemma {:induction false} RecordsAre(assign: string -> string, items: seq<Item>, uid: string) returns (i: nat)
    requires uid in Records(assign, items)
    ensures i < |items| && uid == Address(assign, items[i].uid)
      && Records(assign, items)[uid] == NewRecord(assign, items[i])
  {
    var n := |items| - 1;
    if uid == Address(assign, items[n].uid) {
      i := n;
    } else {
      i := RecordsAre(assign, items[..n], uid);
      assert items[..n][i] == items[i];
    }
  }

  lemma {:induction false} RecordOf(assign: string -> string, items: seq<Item>, i: nat)
    requires i < |items|
    requires forall j, k :: 0 <= j < k < |items| ==> Address(assign, items[j].uid) != Address(assign, items[k].uid)
    ensures Address(assign, items[i].uid) in Records(assign, items)
    ensures Records(assign, items)[Address(assign, items[i].uid)] == NewRecord(assign, items[i])
  {
    var n := |items| - 1;
    if i < n {
      var front := items[..n];
      assert forall j :: 0 <= j < n ==> front[j] == items[j];
      RecordOf(assign, front, i);
    }
  }

  lemma PutNew(store: Store, assign: string -> string, item: Item)
    requires Address(assign, item.uid) !in store
    ensures Put(store, assign, item) == store[Address(assign, item.uid) := NewRecord(assign, item)]
  {
    var uid := Address(assign, item.uid);
    assert Merged(Authz(uid, None, None, NO_BITS), item) == NewRecord(assign, item);
  }

  predicate NoneAt(assign: string -> string, items: seq<Item>, uid: string) {
    forall i :: 0 <= i < |items| ==> Address(assign, items[i].uid) != uid
  }

  lemma NotAmong(assign: string -> string, items: seq<Item>, uid: string)
    requires NoneAt(assign, items, uid)
    ensures uid !in Records(assign, items)
  {
    if uid in Records(assign, items) { var i := RecordsAre(assign, items, uid); }
  }

  lemma AddRecord(store: Store, records: Store, uid: string, a: Authz)
    ensures (store + records)[uid := a] == store + records[uid := a]
  {
  }

  /** New nodes are stored as requested, and no other node changes. */
  lemma {:induction false} PutAllNew(store: Store, assign: string -> string, items: seq<Item>)
    requires AllNew(store, assign, items)
    ensures PutAll(store, assign, items) == store + Records(assign, items)
  {
    if items != [] {
      NewFront(store, assign, items);
      PutAllNew(store, assign, items[..|items| - 1]);
      PutAfterNew(store, assign, items[..|items| - 1], items[|items| - 1]);
    }
  }

  /** Among new nodes, those before the last are new and are not the last. */
  lemma NewFront(store: Store, assign: string -> string, items: seq<Item>)
    requires items != [] && AllNew(store, assign, items)
    ensures AllNew(store, assign, items[..|items| - 1])
    ensures NoneAt(assign, items[..|items| - 1], Address(assign, items[|items| - 1].uid))
  {
    var front := items[..|items| - 1];
    assert forall i :: 0 <= i < |front| ==> front[i] == items[i];
  }

  /** One more new node on top of others. */
  lemma PutAfterNew(store: Store, assign: string -> string, front: seq<Item>, last: Item)
    requires Address(assign, last.uid) !in store
    requires NoneAt(assign, front, Address(assign, last.uid))
    ensures Put(store + Records(assign, front), assign, last)
         == store + Records(assign, front)[Address(assign, last.uid) := NewRecord(assign, last)]
  {
    NotAmong(assign, front, Address(assign, last.uid));
    PutNew(store + Records(assign, front), assign, last);
    AddRecord(store, Records(assign, front), Address(assign, last.uid), NewRecord(assign, last));
  }

  // ---------------------------------------------------------------- writing what is there

  predicate BitsKept(before: Bits, after: Bits) { after == before || after == NoNulls(before) }

  /** Nothing is lost, and nobody's owner, share group or bits change: a bit may only go from null to false. */
  ghost predicate Keeps(s: Store, t: Store) {
    forall uid :: uid in s ==>
      && uid in t && t[uid].uid == s[uid].uid && t[uid].own == s[uid].own && t[uid].sgi == s[uid].sgi
      && BitsKept(s[uid].bits, t[uid].bits)
  }

  /** The entry repeats what is stored of a node, with no bit left null. */
  predicate Repeats(store: Store, item: Item) {
    && !IsBlank(item.uid) && item.uid in store
    && item.own == store[item.uid].own && item.sgi == store[item.uid].sgi && item.bits == NoNulls(store[item.uid].bits)
  }

  lemma NoNullsTwice(b: Bits)
    ensures NoNulls(NoNulls(b)) == NoNulls(b)
  {
  }

  lemma PutRepeated(store: Store, assign: string -> string, item: Item)
    requires Repeats(store, item)
    ensures Put(store, assign, item) == store[item.uid := store[item.uid].(bits := NoNulls(store[item.uid].bits))]
  {
    assert Merged(store[item.uid], item) == store[item.uid].(bits := NoNulls(store[item.uid].bits));
  }

  lemma RepeatsLater(s: Store, t: Store, item: Item)
    requires Repeats(s, item) && Keeps(s, t)
    ensures Repeats(t, item)
  {
    NoNullsTwice(s[item.uid].bits);
  }

  lemma PutOneRepeated(store: Store, before: Store, assign: string -> string, item: Item)
    requires Keeps(store, before) && before.Keys == store.Keys && Repeats(store, item)
    ensures Keeps(store, Put(before, assign, item)) && Put(before, assign, item).Keys == store.Keys
  {
    RepeatsLater(store, before, item);
    PutRepeated(before, assign, item);
    NoNullsTwice(store[item.uid].bits);
  }

  /** Entries that repeat what is stored keep all of it. */
  lemma {:induction false} PutAllRepeated(store: Store, assign: string -> string, items: seq<Item>)
    requires forall i :: 0 <= i < |items| ==> Repeats(store, items[i])
    ensures Keeps(store, PutAll(store, assign, items)) && PutAll(store, assign, items).Keys == store.Keys
  {
    if items != [] {
      var n := |items| - 1;
      assert forall i :: 0 <= i < n ==> items[..n][i] == items[i];
      PutAllRepeated(store, assign, items[..n]);
      PutOneRepeated(store, PutAll(store, assign, items[..n]), assign, items[n]);
    }
  }

  lemma BitsKeptFurther(a: Bits, b: Bits, c: Bits)
    requires BitsKept(a, b) && BitsKept(b, c)
    ensures BitsKept(a, c)
  {
    NoNullsTwice(a);
  }

  lemma KeepsFurther(s: Store, t: Store, u: Store)
    requires Keeps(s, t) && Keeps(t, u)
    ensures Keeps(s, u)
  {
    forall uid | uid in s ensures uid in u && BitsKept(s[uid].bits, u[uid].bits) {
      BitsKeptFurther(s[uid].bits, t[uid].bits, u[uid].bits);
    }
  }
}
