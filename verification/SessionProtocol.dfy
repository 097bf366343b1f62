/**
 * Many clients, one session manager goroutine, one unbuffered channel (state/user.go): every `Usm*`
 * wrapper sends one message and, if it made a return channel, receives once from it. A send on an
 * unbuffered channel is a rendezvous with the receiver.
 */
module SessionProtocol {
  import opened Graph
  import opened Text
  import opened Session

  /** Whether the wrapper of an operation makes a return channel and receives from it; the others pass nil. */
  predicate Receives(op: Op) {
    op == TokenGet || op == TokenDel || op == SgiCheck || op == SgiAllow || op == SgiList
  }

  /** There is a wrapper for every handled operation. */
  predicate HasWrapper(op: Op) { op != Unhandled }

  datatype Client = Idle | Sending(call: nat) | Waiting(call: nat)

  datatype Server = Ready | Processing(call: nat) | Replying(call: nat, value: string)

  /** `index` is the position in the server's receive order; `end` the number of messages received by the return. */
  datatype Status = Offered | Taken(index: nat) | Returned(index: nat, end: nat, result: Option<string>)

  /** One wrapper call; `start` is the number of messages received when it was made. */
  datatype Call = Call(client: nat, msg: Message, start: nat, status: Status)

  /** `log` holds the messages in receive order and `takers` the call each came from. */
  datatype System = System(clients: seq<Client>, server: Server, maps: State,
                           log: seq<Message>, takers: seq<nat>, calls: seq<Call>)

  datatype Action = Start(c: nat, msg: Message) | Receive(c: nat) | Process(reply: Option<string>) | Deliver(c: nat)

  ghost predicate Init(s: System) {
    && (forall c :: 0 <= c < |s.clients| ==> s.clients[c] == Idle)
    && s.server == Ready && s.maps == INITIAL && s.log == [] && s.takers == [] && s.calls == []
  }

  ghost predicate Enabled(s: System, a: Action) {
    match a
    case Start(c, msg) => c < |s.clients| && s.clients[c] == Idle && HasWrapper(msg.op)
    case Receive(c) => c < |s.clients| && s.clients[c].Sending? && s.clients[c].call < |s.calls| && s.server == Ready
    case Process(reply) =>
      s.server.Processing? && s.server.call < |s.calls| && Replies(s.maps, s.calls[s.server.call].msg, reply)
    case Deliver(c) =>
      && c < |s.clients| && s.server.Replying? && s.clients[c] == Waiting(s.server.call)
      && s.server.call < |s.calls| && s.calls[s.server.call].status.Taken?
  }

  /** A wrapper that passes nil returns at the rendezvous, before its message is processed. */
  ghost function After(s: System, a: Action): System
    requires Enabled(s, a)
  {
    match a
    case Start(c, msg) =>
      s.(clients := s.clients[c := Sending(|s.calls|)], calls := s.calls + [Call(c, msg, |s.log|, Offered)])
    case Receive(c) =>
      var k := s.clients[c].call;
      var call := s.calls[k];
      var now := |s.log|;
      var waits := Receives(call.msg.op);
      s.(clients := s.clients[c := if waits then Waiting(k) else Idle],
         server := Processing(k),
         log := s.log + [call.msg],
         takers := s.takers + [k],
         calls := s.calls[k := call.(status := if waits then Taken(now) else Returned(now, now + 1, None))])
    case Process(reply) =>
      var k := s.server.call;
      s.(maps := Next(s.maps, s.calls[k].msg),
         server := if reply.Some? then Replying(k, reply.value) else Ready)
    case Deliver(c) =>
      var k := s.server.call;
      var call := s.calls[k];
      s.(clients := s.clients[c := Idle],
         server := Ready,
         calls := s.calls[k := call.(status := Returned(call.status.index, |s.log|, Some(s.server.value)))])
  }

  ghost predicate StepBy(s: System, a: Action, t: System) { Enabled(s, a) && t == After(s, a) }

  ghost predicate Step(s: System, t: System) { exists a :: StepBy(s, a, t) }

  ghost predicate StepAt(run: seq<System>, i: int)
    requires 0 < i < |run|
  {
    Step(run[i - 1], run[i])
  }

  ghost predicate Behaviour(run: seq<System>) {
    && |run| > 0
    && Init(run[0])
    && forall i :: 0 < i < |run| ==> StepAt(run, i)
  }

  // ---------------------------------------------------------------------- the invariant

  /** A call that the server has received is in the log where it says, and its result is what the log prescribes. */
  ghost predicate CallOk(s: System, k: nat)
    requires k < |s.calls|
  {
    var call := s.calls[k];
    && HasWrapper(call.msg.op)
    && call.start <= |s.log|
    && (call.status.Taken? ==> Receives(call.msg.op))
    && (!call.status.Offered? ==>
         && call.start <= call.status.index < |s.log|
         && s.log[call.status.index] == call.msg
         && call.status.index < |s.takers| && s.takers[call.status.index] == k)
    && (call.status.Returned? ==>
         && call.status.index < call.status.end <= |s.log|
         && (call.status.result.Some? <==> Receives(call.msg.op))
         && Replies(Run(INITIAL, s.log[..call.status.index]), call.msg, call.status.result))
  }

  /** A client in a call knows its own call; a waiting one is being served. */
  predicate ClientOk(s: System, c: nat)
    requires c < |s.clients|
  {
    match s.clients[c]
    case Idle => true
    case Sending(k) => k < |s.calls| && s.calls[k].client == c && s.calls[k].status == Offered
    case Waiting(k) =>
      && k < |s.calls| && s.calls[k].client == c && s.calls[k].status.Taken?
      && (s.server == Processing(k) || (s.server.Replying? && s.server.call == k))
  }

  /** The maps are what the received messages make them, but for the one in hand. */
  ghost predicate ServerOk(s: System) {
    match s.server
    case Ready => s.maps == Run(INITIAL, s.log)
    case Processing(k) =>
      && s.log != [] && s.maps == Run(INITIAL, s.log[..|s.log| - 1])
      && k < |s.calls| && s.calls[k].msg == s.log[|s.log| - 1]
      && (Receives(s.calls[k].msg.op) ==> InHand(s, k))
    case Replying(k, value) =>
      && s.log != [] && s.maps == Run(INITIAL, s.log)
      && k < |s.calls| && s.calls[k].msg == s.log[|s.log| - 1]
      && Replies(Run(INITIAL, s.log[..|s.log| - 1]), s.calls[k].msg, Some(value))
      && InHand(s, k)
  }

  /** The client of the last message received is waiting for its answer. */
  predicate InHand(s: System, k: nat)
    requires k < |s.calls|
  {
    && s.calls[k].client < |s.clients| && s.clients[s.calls[k].client] == Waiting(k)
    && s.calls[k].status.Taken? && s.calls[k].status.index == |s.log| - 1
  }

  ghost predicate Inv(s: System) {
    && |s.takers| == |s.log|
    && (forall i :: 0 <= i < |s.takers| ==> s.takers[i] < |s.calls| && !s.calls[s.takers[i]].status.Offered?)
    && (forall k :: 0 <= k < |s.calls| ==> CallOk(s, k))
    && (forall c :: 0 <= c < |s.clients| ==> ClientOk(s, c))
    && ServerOk(s)
  }

  /** Every operation sends exactly as many replies as its wrapper receives. */
  lemma RepliesMatchReceives(s: State, m: Message, reply: Option<string>)
    requires HasWrapper(m.op) && Replies(s, m, reply)
    ensures reply.Some? <==> Receives(m.op)
  {
  }

  lemma StartKeepsInv(s: System, c: nat, msg: Message)
    requires Inv(s) && Enabled(s, Start(c, msg))
    ensures Inv(After(s, Start(c, msg)))
  {
    var t := After(s, Start(c, msg));
    forall k | 0 <= k < |t.calls| ensures CallOk(t, k) {
      if k < |s.calls| { assert CallOk(s, k); }
    }
    forall d | 0 <= d < |t.clients| ensures ClientOk(t, d) { assert ClientOk(s, d); }
  }

  lemma ReceiveKeepsInv(s: System, c: nat)
    requires Inv(s) && Enabled(s, Receive(c))
    ensures Inv(After(s, Receive(c)))
  {
    var t := After(s, Receive(c));
    var n := |s.log|;
    assert ClientOk(s, c) && CallOk(s, s.clients[c].call);
    assert t.log[..n] == s.log;
    forall k | 0 <= k < |t.calls| ensures CallOk(t, k) {
      assert CallOk(s, k);
      if s.calls[k].status.Returned? { assert t.log[..s.calls[k].status.index] == s.log[..s.calls[k].status.index]; }
    }
    forall d | 0 <= d < |t.clients| ensures ClientOk(t, d) { assert ClientOk(s, d); }
  }

  lemma ProcessKeepsInv(s: System, reply: Option<string>)
    requires Inv(s) && Enabled(s, Process(reply))
    ensures Inv(After(s, Process(reply)))
  {
    var t := After(s, Process(reply));
    var k := s.server.call;
    assert CallOk(s, k);
    RepliesMatchReceives(s.maps, s.calls[k].msg, reply);
    forall k | 0 <= k < |t.calls| ensures CallOk(t, k) { assert CallOk(s, k); }
    forall d | 0 <= d < |t.clients| ensures ClientOk(t, d) { assert ClientOk(s, d); }
  }

  lemma DeliverKeepsInv(s: System, c: nat)
    requires Inv(s) && Enabled(s, Deliver(c))
    ensures Inv(After(s, Deliver(c)))
  {
    var t := After(s, Deliver(c));
    assert ClientOk(s, c);
    forall k | 0 <= k < |t.calls| ensures CallOk(t, k) { assert CallOk(s, k); }
    forall d | 0 <= d < |t.clients| ensures ClientOk(t, d) { assert ClientOk(s, d); }
  }

  lemma StepKeepsInv(s: System, t: System)
    requires Inv(s) && Step(s, t)
    ensures Inv(t)
  {
    var a :| StepBy(s, a, t);
    match a {
      case Start(c, msg) => StartKeepsInv(s, c, msg);
      case Receive(c) => ReceiveKeepsInv(s, c);
      case Process(reply) => ProcessKeepsInv(s, reply);
      case Deliver(c) => DeliverKeepsInv(s, c);
    }
  }

  lemma {:induction false} InvAlways(run: seq<System>, i: nat)
    requires Behaviour(run) && i < |run|
    ensures Inv(run[i])
  {
    if i > 0 {
      InvAlways(run, i - 1);
      assert StepAt(run, i);
      StepKeepsInv(run[i - 1], run[i]);
    }
  }

  // --------------------------------------------------------------------------- never stuck

  function SendingClients(s: System): set<int> { set c | 0 <= c < |s.clients| && s.clients[c].Sending? }

  /** Rendezvous and replies still owed. */
  function Work(s: System): nat {
    3 * |SendingClients(s)| + match s.server case Ready => 0 case Processing(_) => 2 case Replying(_, _) => 1
  }

  lemma {:induction false} SomeEnumeration(elements: set<string>) returns (list: seq<string>)
    ensures Enumerates(list, elements)
    decreases |elements|
  {
    if elements == {} {
      list := [];
    } else {
      var x :| x in elements;
      var rest := SomeEnumeration(elements - {x});
      list := rest + [x];
    }
  }

  lemma SomeReply(s: State, m: Message) returns (reply: Option<string>)
    ensures Replies(s, m, reply)
  {
    match m.op {
      case TokenGet => reply := Some(Answer(IsLive(s, m.uid, m.value)));
      case TokenDel => reply := Some(OK);
      case SgiCheck => reply := Some(Answer(CanAccess(s, m.uid, m.value)));
      case SgiAllow => reply := Some("");
      case SgiList =>
        var elements := if m.uid == "" then {} else Of(s.allow, m.uid);
        var list := SomeEnumeration(elements);
        assert IsListing(Join(list, ","), list, elements);
        reply := Some(Join(list, ","));
      case _ => reply := None;
    }
  }

  /**
   * Never stuck: as long as any call is unfinished or the server is busy, some rendezvous or reply is
   * possible without anybody making a new call.
   */
  lemma NeverStuck(s: System) returns (a: Action)
    requires Inv(s)
    requires s.server != Ready || exists c :: 0 <= c < |s.clients| && s.clients[c] != Idle
    ensures !a.Start? && Enabled(s, a)
  {
    match s.server {
      case Ready =>
        var c: nat :| c < |s.clients| && s.clients[c] != Idle;
        assert ClientOk(s, c);
        a := Receive(c);
      case Processing(k) =>
        var reply := SomeReply(s.maps, s.calls[k].msg);
        a := Process(reply);
      case Replying(k, _) =>
        a := Deliver(s.calls[k].client);
    }
  }

  /** Every such step does work, so with no new calls everybody returns after at most `Work(s)` steps. */
  lemma StepsDoWork(s: System, a: Action)
    requires Inv(s) && Enabled(s, a) && !a.Start?
    ensures Work(After(s, a)) < Work(s)
  {
    var t := After(s, a);
    match a {
      case Receive(c) =>
        assert SendingClients(t) == SendingClients(s) - {c as int};
      case Process(_) =>
        assert SendingClients(t) == SendingClients(s);
      case Deliver(c) =>
        assert SendingClients(t) == SendingClients(s);
    }
  }

  lemma NoWorkMeansQuiet(s: System, c: nat)
    requires Inv(s) && Work(s) == 0 && c < |s.clients|
    ensures s.clients[c] == Idle && s.server == Ready
  {
    assert ClientOk(s, c);
    assert SendingClients(s) == {};
    assert (c as int) !in SendingClients(s);
  }

  // ------------------------------------------------------------------------- linearizability

  /**
   * Every finished call took effect at one point between its call and its return: at that point of the
   * receive order, and at no other, its message stands, and its result is what the sequential maps
   * give there.
   */
  lemma EveryCallLinearizes(run: seq<System>, i: nat, k: nat)
    requires Behaviour(run) && i < |run| && k < |run[i].calls| && run[i].calls[k].status.Returned?
    ensures var call := run[i].calls[k];
      && call.start <= call.status.index < call.status.end <= |run[i].log|
      && run[i].log[call.status.index] == call.msg
      && (forall j :: 0 <= j < |run[i].takers| ==> (run[i].takers[j] == k <==> j == call.status.index))
      && (call.status.result.Some? <==> Receives(call.msg.op))
      && Replies(Run(INITIAL, run[i].log[..call.status.index]), call.msg, call.status.result)
  {
    InvAlways(run, i);
    var s := run[i];
    assert CallOk(s, k);
    TakersAlways(run, i);
  }

  ghost predicate TakersOk(s: System) {
    forall j :: 0 <= j < |s.takers| ==>
      s.takers[j] < |s.calls| && !s.calls[s.takers[j]].status.Offered? && s.calls[s.takers[j]].status.index == j
  }

  lemma TakersStep(s: System, t: System)
    requires Inv(s) && TakersOk(s) && Step(s, t)
    ensures TakersOk(t)
  {
    var a :| StepBy(s, a, t);
    if a.Receive? { assert ClientOk(s, a.c); }
  }

  lemma {:induction false} TakersAlways(run: seq<System>, i: nat)
    requires Behaviour(run) && i < |run|
    ensures TakersOk(run[i])
  {
    if i > 0 {
      TakersAlways(run, i - 1);
      InvAlways(run, i - 1);
      assert StepAt(run, i);
      TakersStep(run[i - 1], run[i]);
    }
  }

  /** What a later state keeps of an earlier one. */
  ghost predicate Extends(s: System, t: System) {
    && |s.log| <= |t.log| && t.log[..|s.log|] == s.log
    && |s.calls| <= |t.calls|
    && (forall k :: 0 <= k < |s.calls| ==>
         && t.calls[k].msg == s.calls[k].msg && t.calls[k].start == s.calls[k].start
         && (s.calls[k].status.Returned? ==> t.calls[k] == s.calls[k]))
    && (forall k :: |s.calls| <= k < |t.calls| ==> t.calls[k].start >= |s.log|)
  }

  lemma StepExtends(s: System, t: System)
    requires Inv(s) && Step(s, t)
    ensures Extends(s, t)
  {
    var a :| StepBy(s, a, t);
    if a.Receive? { assert ClientOk(s, a.c); }
    assert t.log[..|s.log|] == s.log;
  }

  lemma {:induction false} RunExtends(run: seq<System>, i: nat, j: nat)
    requires Behaviour(run) && i <= j < |run|
    ensures Extends(run[i], run[j])
  {
    if i < j {
      RunExtends(run, i, j - 1);
      InvAlways(run, j - 1);
      assert StepAt(run, j);
      StepExtends(run[j - 1], run[j]);
      var n := |run[i].log|;
      assert run[j].log[..n] == run[j].log[..|run[j - 1].log|][..n];
    } else {
      assert run[i].log[..|run[i].log|] == run[i].log;
    }
  }

  /** The order respects real time: a call made after another has returned takes effect after it. */
  lemma RealTimeOrder(run: seq<System>, i: nat, j: nat, a: nat, b: nat)
    requires Behaviour(run) && i <= j < |run|
    requires a < |run[i].calls| && run[i].calls[a].status.Returned?
    requires |run[i].calls| <= b < |run[j].calls| && run[j].calls[b].status.Returned?
    ensures run[j].calls[a] == run[i].calls[a]
    ensures run[j].calls[a].status.index < run[j].calls[b].status.index
  {
    RunExtends(run, i, j);
    EveryCallLinearizes(run, i, a);
    EveryCallLinearizes(run, j, b);
  }

  /** Some message strictly between two points of the receive order. */
  ghost predicate Between(log: seq<Message>, lo: int, hi: int, p: Message -> bool) {
    exists k :: 0 <= k && lo < k < hi && k < |log| && p(log[k])
  }

  /** What stands before a point and is cleared later must have been set again in between. */
  lemma SetAgain(log: seq<Message>, lo: nat, hi: nat, sets: Message -> bool, clears: Message -> bool)
    requires lo < hi <= |log| && clears(log[lo]) && !sets(log[lo]) && Stands(log[..hi], sets, clears)
    ensures Between(log, lo, hi, sets)
  {
    var front := log[..hi];
    var k :| 0 <= k < |front| && sets(front[k]) && Uncleared(front, k, clears);
    assert front[lo] == log[lo] && front[k] == log[k];
  }

  lemma ClearedAgain(log: seq<Message>, lo: nat, hi: nat, sets: Message -> bool, clears: Message -> bool)
    requires lo < hi <= |log| && sets(log[lo]) && !Stands(log[..hi], sets, clears)
    ensures Between(log, lo, hi, clears)
  {
    var front := log[..hi];
    assert front[lo] == log[lo];
    assert !Uncleared(front, lo, clears);
    var k :| lo < k < |front| && 0 <= k && clears(front[k]);
    assert front[k] == log[k];
  }

  /**
   * An unacknowledged add is seen: a check made after the add returned fails only if the id was
   * deleted in between.
   */
  lemma UnacknowledgedAddIsSeen(run: seq<System>, i: nat, j: nat, a: nat, b: nat, uid: string, id: string)
    requires Behaviour(run) && i <= j < |run| && uid != ""
    requires a < |run[i].calls| && run[i].calls[a].status.Returned? && run[i].calls[a].msg == Message(TokenAdd, uid, id)
    requires |run[i].calls| <= b < |run[j].calls| && run[j].calls[b].status.Returned?
    requires run[j].calls[b].msg == Message(TokenGet, uid, id) && run[j].calls[b].status.result != Some(OK)
    ensures Between(run[j].log, run[i].calls[a].status.index, run[j].calls[b].status.index, m => Deletes(m, uid, id))
  {
    RealTimeOrder(run, i, j, a, b);
    EveryCallLinearizes(run, j, a);
    EveryCallLinearizes(run, j, b);
    var hi := run[j].calls[b].status.index;
    LiveExactly(run[j].log[..hi], uid, id);
    ClearedAgain(run[j].log, run[j].calls[a].status.index, hi, m => Adds(m, uid, id), m => Deletes(m, uid, id));
  }

  /**
   * An unacknowledged revoke is seen: a check made after the revoke returned succeeds only if the share
   * group was allowed again in between.
   */
  lemma UnacknowledgedRevokeIsSeen(run: seq<System>, i: nat, j: nat, a: nat, b: nat, uid: string, sgi: string)
    requires Behaviour(run) && i <= j < |run|
    requires a < |run[i].calls| && run[i].calls[a].status.Returned? && Revokes(run[i].calls[a].msg, uid, sgi)
    requires |run[i].calls| <= b < |run[j].calls| && run[j].calls[b].status.Returned?
    requires run[j].calls[b].msg == Message(SgiCheck, uid, sgi) && run[j].calls[b].status.result == Some(OK)
    ensures Between(run[j].log, run[i].calls[a].status.index, run[j].calls[b].status.index, m => Allows(m, uid, sgi))
  {
    RealTimeOrder(run, i, j, a, b);
    EveryCallLinearizes(run, j, a);
    EveryCallLinearizes(run, j, b);
    var hi := run[j].calls[b].status.index;
    GrantedExactly(run[j].log[..hi], uid, sgi);
    SetAgain(run[j].log, run[j].calls[a].status.index, hi, m => Allows(m, uid, sgi), m => Revokes(m, uid, sgi));
  }
}
