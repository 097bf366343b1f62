/**
 * The session manager (state/user.go): live token ids and share-group allowlists, owned by one
 * goroutine that handles messages one at a time.
 */
module Session {
  import opened Graph
  import opened Text

  /** `UsmOp`; the declared operations that the loop does not handle are one case. */
  datatype Op = TokenGet | TokenAdd | TokenDel | SgiCheck | SgiAllow | SgiRevoke | SgiList | Unhandled

  datatype Message = Message(op: Op, uid: string, value: string)

  type Sets = map<string, set<string>>

  datatype State = State(tokens: Sets, allow: Sets)

  const INITIAL := State(map[], map[])

  const OK := "OK"

  function Of(sets: Sets, uid: string): set<string> { if uid in sets then sets[uid] else {} }

  function NonEmpty(parts: seq<string>): set<string> { set p | p in parts && p != "" }

  /** The share groups a comma list names. */
  function Named(value: string): set<string> { NonEmpty(Split(value, ',')) }

  lemma NonEmptyStep(parts: seq<string>, k: nat)
    requires k < |parts|
    ensures NonEmpty(parts[..k + 1]) == NonEmpty(parts[..k]) + if parts[k] != "" then {parts[k]} else {}
  {
    assert parts[..k + 1] == parts[..k] + [parts[k]];
  }

  /** The effect of one message. */
  function Next(s: State, m: Message): State {
    if m.uid == "" then s
    else
      match m.op
      case TokenAdd => s.(tokens := s.tokens[m.uid := Of(s.tokens, m.uid) + {m.value}])
      case TokenDel => if m.uid in s.tokens then s.(tokens := s.tokens[m.uid := s.tokens[m.uid] - {m.value}]) else s
      case SgiAllow => s.(allow := s.allow[m.uid := Of(s.allow, m.uid) + Named(m.value)])
      case SgiRevoke => if m.uid in s.allow then s.(allow := s.allow[m.uid := s.allow[m.uid] - Named(m.value)]) else s
      case _ => s
  }

  predicate IsLive(s: State, uid: string, tokenId: string) { uid != "" && tokenId in Of(s.tokens, uid) }

  predicate CanAccess(s: State, uid: string, sgi: string) { uid != "" && sgi in Of(s.allow, uid) }

  /** `list` is the set in some order: one iteration of a Go map. */
  predicate Enumerates(list: seq<string>, elements: set<string>) {
    && (forall i, j :: 0 <= i < j < |list| ==> list[i] != list[j])
    && (forall k :: 0 <= k < |list| ==> list[k] in elements)
    && (forall x :: x in elements ==> x in list)
  }

  function Answer(yes: bool): string { if yes then OK else "" }

  predicate IsListing(text: string, list: seq<string>, elements: set<string>) {
    Enumerates(list, elements) && text == Join(list, ",")
  }

  ghost predicate SomeListing(text: string, elements: set<string>) {
    exists list :: IsListing(text, list, elements)
  }

  /** What may be sent back for a message; `None` is no reply at all. */
  ghost predicate Replies(s: State, m: Message, reply: Option<string>) {
    match m.op
    case TokenGet => reply == Some(Answer(IsLive(s, m.uid, m.value)))
    case TokenDel => reply == Some(OK)
    case SgiCheck => reply == Some(Answer(CanAccess(s, m.uid, m.value)))
    case SgiAllow => reply == Some("")
    case SgiList => reply.Some? && SomeListing(reply.value, if m.uid == "" then {} else Of(s.allow, m.uid))
    case _ => reply == None
  }

  function Run(s: State, log: seq<Message>): State {
    if log == [] then s else Next(Run(s, log[..|log| - 1]), log[|log| - 1])
  }

  lemma RunStep(s: State, log: seq<Message>, m: Message)
    ensures Run(s, log + [m]) == Next(Run(s, log), m)
  {
    assert (log + [m])[..|log|] == log;
  }

  /** Each message is answered from the state left by the messages before it. */
  ghost predicate Answers(s: State, msgs: seq<Message>, replies: seq<Option<string>>) {
    |replies| == |msgs| && forall i :: 0 <= i < |msgs| ==> Replies(Run(s, msgs[..i]), msgs[i], replies[i])
  }

  lemma AnswersStep(s: State, msgs: seq<Message>, replies: seq<Option<string>>, m: Message, reply: Option<string>)
    requires Answers(s, msgs, replies) && Replies(Run(s, msgs), m, reply)
    ensures Answers(s, msgs + [m], replies + [reply])
  {
    forall i | 0 <= i <= |msgs| ensures Replies(Run(s, (msgs + [m])[..i]), (msgs + [m])[i], (replies + [reply])[i]) {
      assert (msgs + [m])[..i] == msgs[..i];
      if i == |msgs| { assert msgs[..i] == msgs; }
    }
  }

  /** The goroutine's two maps and one pass of its loop. */
  class SessionManager {
    var tokenIds: Sets
    var sgiAllowlist: Sets

    ghost function Abs(): State
      reads this
    {
      State(tokenIds, sgiAllowlist)
    }

    constructor ()
      ensures Abs() == INITIAL
    {
      tokenIds := map[];
      sgiAllowlist := map[];
    }

    method Handle(msg: Message) returns (reply: Option<string>)
      modifies this
      ensures Abs() == Next(old(Abs()), msg)
      ensures Replies(old(Abs()), msg, reply)
    {
      match msg.op {
        case TokenGet =>
          if msg.uid != "" && msg.uid in tokenIds && msg.value in tokenIds[msg.uid] {
            return Some(OK);
          }
          return Some("");
        case TokenAdd =>
          if msg.uid != "" {
            if msg.uid !in tokenIds {
              tokenIds := tokenIds[msg.uid := {}];
            }
            tokenIds := tokenIds[msg.uid := tokenIds[msg.uid] + {msg.value}];
          }
          return None;
        case TokenDel =>
          if msg.uid != "" && msg.uid in tokenIds {
            tokenIds := tokenIds[msg.uid := tokenIds[msg.uid] - {msg.value}];
          }
          return Some(OK);
        case SgiCheck =>
          if msg.uid != "" && msg.uid in sgiAllowlist && msg.value in sgiAllowlist[msg.uid] {
            return Some(OK);
          }
          return Some("");
        case SgiAllow =>
          if msg.uid != "" {
            if msg.uid !in sgiAllowlist {
              sgiAllowlist := sgiAllowlist[msg.uid := {}];
            }
            Allow(msg.uid, Split(msg.value, ','));
          }
          return Some("");
        case SgiRevoke =>
          if msg.uid != "" && msg.uid in sgiAllowlist {
            Revoke(msg.uid, Split(msg.value, ','));
          }
          return None;
        case SgiList =>
          var elements := if msg.uid != "" && msg.uid in sgiAllowlist then sgiAllowlist[msg.uid] else {};
          var list := ListOf(elements);
          assert IsListing(Join(list, ","), list, elements);
          return Some(Join(list, ","));
        case Unhandled =>
          return None;
      }
    }

    method Allow(uid: string, tp: seq<string>)
      requires uid in sgiAllowlist
      modifies this`sgiAllowlist
      ensures sgiAllowlist == old(sgiAllowlist)[uid := old(sgiAllowlist)[uid] + NonEmpty(tp)]
    {
      ghost var was := sgiAllowlist;
      assert NonEmpty(tp[..0]) == {};
      for k := 0 to |tp|
        invariant sgiAllowlist.Keys == was.Keys
        invariant sgiAllowlist[uid] == was[uid] + NonEmpty(tp[..k])
        invariant forall u :: u in was && u != uid ==> sgiAllowlist[u] == was[u]
      {
        NonEmptyStep(tp, k);
        if tp[k] != "" {
          sgiAllowlist := sgiAllowlist[uid := sgiAllowlist[uid] + {tp[k]}];
        }
      }
      assert tp[..|tp|] == tp;
    }

    method Revoke(uid: string, tp: seq<string>)
      requires uid in sgiAllowlist
      modifies this`sgiAllowlist
      ensures sgiAllowlist == old(sgiAllowlist)[uid := old(sgiAllowlist)[uid] - NonEmpty(tp)]
    {
      ghost var was := sgiAllowlist;
      assert NonEmpty(tp[..0]) == {};
      for k := 0 to |tp|
        invariant sgiAllowlist.Keys == was.Keys
        invariant sgiAllowlist[uid] == was[uid] - NonEmpty(tp[..k])
        invariant forall u :: u in was && u != uid ==> sgiAllowlist[u] == was[u]
      {
        NonEmptyStep(tp, k);
        if tp[k] != "" {
          sgiAllowlist := sgiAllowlist[uid := sgiAllowlist[uid] - {tp[k]}];
        }
      }
      assert tp[..|tp|] == tp;
    }

    /** The message loop over everything it receives. */
    method UsmRun(msgs: seq<Message>) returns (replies: seq<Option<string>>)
      modifies this
      ensures Abs() == Run(old(Abs()), msgs)
      ensures Answers(old(Abs()), msgs, replies)
    {
      ghost var start := Abs();
      replies := [];
      for k := 0 to |msgs|
        invariant Abs() == Run(start, msgs[..k])
        invariant Answers(start, msgs[..k], replies)
      {
        ghost var before := Abs();
        var reply := Handle(msgs[k]);
        assert msgs[..k + 1] == msgs[..k] + [msgs[k]];
        RunStep(start, msgs[..k], msgs[k]);
        AnswersStep(start, msgs[..k], replies, msgs[k], reply);
        replies := replies + [reply];
      }
      assert msgs[..|msgs|] == msgs;
    }
  }

  /** `range` over a set: any order may come out. */
  method ListOf(elements: set<string>) returns (list: seq<string>)
    ensures Enumerates(list, elements)
  {
    list := [];
    var rest := elements;
    while rest != {}
      invariant rest <= elements
      invariant Enumerates(list, elements - rest)
      decreases |rest|
    {
      var sgi :| sgi in rest;
      list := list + [sgi];
      rest := rest - {sgi};
    }
  }

  // ------------------------------------------------- what the maps say about the messages so far

  predicate Adds(m: Message, uid: string, tokenId: string) { m == Message(TokenAdd, uid, tokenId) }

  predicate Deletes(m: Message, uid: string, tokenId: string) { m == Message(TokenDel, uid, tokenId) }

  predicate Allows(m: Message, uid: string, sgi: string) {
    m.op == SgiAllow && m.uid == uid && sgi in Split(m.value, ',')
  }

  predicate Revokes(m: Message, uid: string, sgi: string) {
    m.op == SgiRevoke && m.uid == uid && sgi in Split(m.value, ',')
  }

  /** Some message set it and no later one cleared it. */
  ghost predicate Stands(log: seq<Message>, sets: Message -> bool, clears: Message -> bool) {
    exists i :: 0 <= i < |log| && sets(log[i]) && Uncleared(log, i, clears)
  }

  ghost predicate Uncleared(log: seq<Message>, i: int, clears: Message -> bool) {
    forall j :: i < j < |log| && 0 <= j ==> !clears(log[j])
  }

  lemma StandsLonger(log: seq<Message>, sets: Message -> bool, clears: Message -> bool)
    requires log != [] && Stands(log[..|log| - 1], sets, clears) && !clears(log[|log| - 1])
    ensures Stands(log, sets, clears)
  {
    var n := |log| - 1;
    var front := log[..n];
    var i :| 0 <= i < |front| && sets(front[i]) && Uncleared(front, i, clears);
    forall j | i < j < |log| && 0 <= j ensures !clears(log[j]) {
      if j < n { assert front[j] == log[j]; }
    }
    assert sets(log[i]) && Uncleared(log, i, clears);
  }

  lemma StoodBefore(log: seq<Message>, sets: Message -> bool, clears: Message -> bool)
    requires log != [] && Stands(log, sets, clears) && !sets(log[|log| - 1])
    ensures Stands(log[..|log| - 1], sets, clears) && !clears(log[|log| - 1])
  {
    var front := log[..|log| - 1];
    var i :| 0 <= i < |log| && sets(log[i]) && Uncleared(log, i, clears);
    assert sets(front[i]);
    forall j | i < j < |front| && 0 <= j ensures !clears(front[j]) { assert front[j] == log[j]; }
    assert Uncleared(front, i, clears);
  }

  lemma StandsStep(log: seq<Message>, sets: Message -> bool, clears: Message -> bool)
    requires log != [] && !(sets(log[|log| - 1]) && clears(log[|log| - 1]))
    ensures Stands(log, sets, clears)
       <==> sets(log[|log| - 1]) || (Stands(log[..|log| - 1], sets, clears) && !clears(log[|log| - 1]))
  {
    var n := |log| - 1;
    if sets(log[n]) {
      assert Uncleared(log, n, clears);
    } else {
      if Stands(log, sets, clears) { StoodBefore(log, sets, clears); }
      if Stands(log[..n], sets, clears) && !clears(log[n]) { StandsLonger(log, sets, clears); }
    }
  }

  ghost predicate Live(log: seq<Message>, uid: string, tokenId: string) {
    uid != "" && Stands(log, m => Adds(m, uid, tokenId), m => Deletes(m, uid, tokenId))
  }

  ghost predicate Granted(log: seq<Message>, uid: string, sgi: string) {
    uid != "" && sgi != "" && Stands(log, m => Allows(m, uid, sgi), m => Revokes(m, uid, sgi))
  }

  /** A token id is live exactly when it was added and not deleted since. */
  lemma {:induction false} LiveExactly(log: seq<Message>, uid: string, tokenId: string)
    ensures IsLive(Run(INITIAL, log), uid, tokenId) <==> Live(log, uid, tokenId)
  {
    if log != [] {
      LiveExactly(log[..|log| - 1], uid, tokenId);
      StandsStep(log, m => Adds(m, uid, tokenId), m => Deletes(m, uid, tokenId));
    }
  }

  /** A share group is allowed exactly when some comma list allowed it and no later one revoked it. */
  lemma {:induction false} GrantedExactly(log: seq<Message>, uid: string, sgi: string)
    ensures CanAccess(Run(INITIAL, log), uid, sgi) <==> Granted(log, uid, sgi)
  {
    if log != [] {
      GrantedExactly(log[..|log| - 1], uid, sgi);
      StandsStep(log, m => Allows(m, uid, sgi), m => Revokes(m, uid, sgi));
    }
  }

  /** What is on an allowlist is a non-empty piece of some comma list. */
  predicate IsName(sgi: string) { sgi != "" && ',' !in sgi }

  lemma GrantedAreNames(log: seq<Message>, uid: string, sgi: string)
    requires CanAccess(Run(INITIAL, log), uid, sgi)
    ensures IsName(sgi)
  {
    GrantedExactly(log, uid, sgi);
  }

  // --------------------------------------------------------------------- the client's side

  /** `UsmUserAllowedSgis`, given the reply. */
  function AllowedSgis(reply: string): seq<string> {
    if reply == "" then [] else Split(reply, ',')
  }

  lemma {:induction false} JoinOfNames(list: seq<string>)
    requires forall s :: s in list ==> IsName(s)
    ensures Join(list, ",") == "" <==> list == []
  {
    if |list| > 0 { assert list[0] in list; }
  }

  /**
   * Listing agrees with checking: after any messages, and for any order in which the server walks its
   * map, the client gets without repeats exactly the share groups for which a check answers OK.
   */
  lemma ListingAgreesWithChecking(log: seq<Message>, uid: string, value: string, reply: Option<string>)
    requires Replies(Run(INITIAL, log), Message(SgiList, uid, value), reply)
    ensures reply.Some?
    ensures forall i, j :: 0 <= i < j < |AllowedSgis(reply.value)| ==>
      AllowedSgis(reply.value)[i] != AllowedSgis(reply.value)[j]
    ensures forall sgi ::
      sgi in AllowedSgis(reply.value) <==> Replies(Run(INITIAL, log), Message(SgiCheck, uid, sgi), Some(OK))
  {
    var s := Run(INITIAL, log);
    var elements := if uid == "" then {} else Of(s.allow, uid);
    var list :| IsListing(reply.value, list, elements);
    forall sgi | sgi in list ensures IsName(sgi) {
      assert CanAccess(s, uid, sgi);
      GrantedAreNames(log, uid, sgi);
    }
    JoinOfNames(list);
    if list != [] {
      SplitOfJoin(list, ',');
    }
    assert AllowedSgis(reply.value) == list;
    forall sgi ensures sgi in list <==> Replies(s, Message(SgiCheck, uid, sgi), Some(OK)) {
      assert sgi in list <==> CanAccess(s, uid, sgi);
    }
  }
}
