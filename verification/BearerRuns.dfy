/**
 * Token lifetimes over whole runs (cmd/cogged/main.go, api/auth.go): logins, refreshes, logouts and
 * presentations of any number of requests, each taken apart into the steps between which others can
 * come: verify, check the time, ask the session manager, handle. One question to the session manager
 * is one step, since its calls are linearizable.
 */
module BearerRuns {
  import opened Graph
  import opened Text
  import opened Base64Url
  import opened AuthzData
  import opened Session
  import opened Bearer

  /** What the session manager is told: a login minted an id, or an id was dropped. */
  datatype Event = Minted(uid: string, role: string, tokenId: string) | Dropped(uid: string, tokenId: string)

  function MessageOf(e: Event): Message {
    match e
    case Minted(uid, _, id) => Message(TokenAdd, uid, id)
    case Dropped(uid, id) => Message(TokenDel, uid, id)
  }

  function Messages(history: seq<Event>): seq<Message> {
    seq(|history|, i requires 0 <= i < |history| => MessageOf(history[i]))
  }

  /** A token the server has signed; `login` is the event it goes back to. */
  datatype Issue = Issue(uid: string, role: string, tokenId: string, time: nat, login: nat)

  /** How far a request has come; `from` is the issue behind the presented token. */
  datatype Stage =
    | Verified(uad: Caller, from: nat)
    | InTime(uad: Caller, from: nat, now: nat)
    | Late(uad: Caller, from: nat)
    | Accepted(uad: Caller, from: nat, now: nat)
    | Minting(uid: string, role: string, tokenId: string, login: nat)
    | Finished

  datatype World = World(clock: nat, history: seq<Event>, maps: State, issued: seq<Issue>, requests: seq<Stage>)

  datatype Action =
    | Tick(to: nat)
    | Present(token: string, from: nat)
    | CheckTime(r: nat)
    | CheckId(r: nat)
    | DropLate(r: nat)
    | Logout(r: nat)
    | Refresh(r: nat)
    | Serve(r: nat)
    | LoginMint(uid: string, role: string, tokenId: string)
    | LoginIssue(r: nat)

  function IssueText(i: Issue): string { TokenText(i.uid, i.role, i.tokenId, Decimal(i.time)) }

  /** The signed half of a token is the one the server made for this issue. */
  predicate IsTokenOf(sv: Server, token: string, i: Issue) {
    && ByteString(IssueText(i))
    && AuthzData.Verified(sv.mac, token, sv.key) == Some(Encode(BytesOf(IssueText(i))))
  }

  ghost predicate Init(w: World) {
    w.history == [] && w.maps == INITIAL && w.issued == [] && w.requests == [] && w.clock < TWO_63
  }

  /**
   * Anyone may present anything, but what verifies was issued: `Present` is possible only with the
   * issue that the token carries. Other strings yield no caller and change nothing.
   */
  ghost predicate Enabled(sv: Server, w: World, a: Action) {
    match a
    case Tick(to) => to < TWO_63
    case Present(token, from) =>
      from < |w.issued| && IsTokenOf(sv, token, w.issued[from]) && UADFromToken(sv, token).Some?
    case CheckTime(r) => r < |w.requests| && w.requests[r].Verified?
    case CheckId(r) => r < |w.requests| && w.requests[r].InTime?
    case DropLate(r) => r < |w.requests| && w.requests[r].Late?
    case Logout(r) => r < |w.requests| && w.requests[r].Accepted?
    case Refresh(r) => r < |w.requests| && w.requests[r].Accepted? && w.requests[r].from < |w.issued|
    case Serve(r) => r < |w.requests| && w.requests[r].Accepted?
    case LoginMint(_, _, _) => true
    case LoginIssue(r) => r < |w.requests| && w.requests[r].Minting?
  }

  function Drop(w: World, uid: string, tokenId: string): World {
    w.(history := w.history + [Dropped(uid, tokenId)], maps := Next(w.maps, Message(TokenDel, uid, tokenId)))
  }

  ghost function After(sv: Server, w: World, a: Action): World
    requires Enabled(sv, w, a)
  {
    match a
    case Tick(to) => w.(clock := to)
    case Present(token, from) => w.(requests := w.requests + [Verified(UADFromToken(sv, token).value, from)])
    case CheckTime(r) =>
      var q := w.requests[r];
      w.(requests := w.requests[r := if CheckTimestamp(q.uad.timestamp, w.clock, sv.expiry)
                                     then InTime(q.uad, q.from, w.clock) else Late(q.uad, q.from)])
    case CheckId(r) =>
      var q := w.requests[r];
      w.(requests := w.requests[r := if IsLive(w.maps, q.uad.uid, q.uad.tokenId)
                                     then Accepted(q.uad, q.from, q.now) else Finished])
    case DropLate(r) =>
      Drop(w, w.requests[r].uad.uid, w.requests[r].uad.tokenId).(requests := w.requests[r := Finished])
    case Logout(r) => Drop(w, w.requests[r].uad.uid, w.requests[r].uad.tokenId).(requests := w.requests[r := Finished])
    case Refresh(r) =>
      var u := w.requests[r].uad;
      w.(issued := w.issued + [Issue(u.uid, u.role, u.tokenId, w.clock, w.issued[w.requests[r].from].login)],
         requests := w.requests[r := Finished])
    case Serve(r) => w.(requests := w.requests[r := Finished])
    case LoginMint(uid, role, id) =>
      w.(history := w.history + [Minted(uid, role, id)],
         maps := Next(w.maps, Message(TokenAdd, uid, id)),
         requests := w.requests + [Minting(uid, role, id, |w.history|)])
    case LoginIssue(r) =>
      var q := w.requests[r];
      w.(issued := w.issued + [Issue(q.uid, q.role, q.tokenId, w.clock, q.login)],
         requests := w.requests[r := Finished])
  }

  ghost predicate StepBy(sv: Server, w: World, a: Action, v: World) { Enabled(sv, w, a) && v == After(sv, w, a) }

  ghost predicate Step(sv: Server, w: World, v: World) { exists a :: StepBy(sv, w, a, v) }

  ghost predicate StepAt(sv: Server, run: seq<World>, i: int)
    requires 0 < i < |run|
  {
    Step(sv, run[i - 1], run[i])
  }

  ghost predicate Behaviour(sv: Server, run: seq<World>) {
    && |run| > 0 && Init(run[0])
    && forall i :: 0 < i < |run| ==> StepAt(sv, run, i)
  }

  // ------------------------------------------------------------------------ the invariant

  /** An issue goes back to a login of the same user, role and token id. */
  predicate IssueOk(w: World, i: Issue) {
    i.time < TWO_63 && i.login < |w.history| && w.history[i.login] == Minted(i.uid, i.role, i.tokenId)
  }

  predicate NamedBy(uad: Caller, i: Issue) {
    uad.uid == i.uid && uad.role == i.role && uad.tokenId == i.tokenId && uad.timestamp == Decimal(i.time)
  }

  predicate From(w: World, uad: Caller, from: nat) { from < |w.issued| && NamedBy(uad, w.issued[from]) }

  predicate StageOk(sv: Server, w: World, q: Stage) {
    match q
    case Verified(uad, from) => From(w, uad, from)
    case InTime(uad, from, now) => From(w, uad, from) && now < w.issued[from].time + sv.expiry
    case Late(uad, from) => From(w, uad, from)
    case Accepted(uad, from, now) => From(w, uad, from) && now < w.issued[from].time + sv.expiry
    case Minting(uid, role, id, login) => login < |w.history| && w.history[login] == Minted(uid, role, id)
    case Finished => true
  }

  ghost predicate Inv(sv: Server, w: World) {
    && w.clock < TWO_63
    && w.maps == Run(INITIAL, Messages(w.history))
    && (forall k :: 0 <= k < |w.issued| ==> IssueOk(w, w.issued[k]))
    && (forall r :: 0 <= r < |w.requests| ==> StageOk(sv, w, w.requests[r]))
  }

  lemma MessagesStep(history: seq<Event>, e: Event)
    ensures Run(INITIAL, Messages(history + [e])) == Next(Run(INITIAL, Messages(history)), MessageOf(e))
  {
    assert Messages(history + [e]) == Messages(history) + [MessageOf(e)];
    RunStep(INITIAL, Messages(history), MessageOf(e));
  }

  /** The caller that a token names is the one its issue was made for. */
  lemma CarriedNames(sv: Server, token: string, i: Issue)
    requires IsTokenOf(sv, token, i) && UADFromToken(sv, token).Some?
    ensures NamedBy(UADFromToken(sv, token).value, i)
  {
    DecodeEncode(BytesOf(IssueText(i)));
    StringOfBytesOf(IssueText(i));
    CallerOfOwnText(sv, i.uid, i.role, i.tokenId, Decimal(i.time));
  }

  /** A step that only appends to the record and changes at most one request. */
  lemma Keep(sv: Server, w: World, v: World, r: nat)
    requires Inv(sv, w)
    requires w.history <= v.history && w.issued <= v.issued && |v.requests| >= |w.requests|
    requires v.maps == Run(INITIAL, Messages(v.history)) && v.clock < TWO_63
    requires forall k :: 0 <= k < |w.requests| && k != r ==> v.requests[k] == w.requests[k]
    requires forall k :: 0 <= k < |v.requests| && (k == r || k >= |w.requests|) ==> StageOk(sv, v, v.requests[k])
    requires forall k :: |w.issued| <= k < |v.issued| ==> IssueOk(v, v.issued[k])
    ensures Inv(sv, v)
  {
    forall k | 0 <= k < |v.issued| ensures IssueOk(v, v.issued[k]) {
      if k < |w.issued| { assert IssueOk(w, w.issued[k]) && v.issued[k] == w.issued[k]; }
    }
    forall k | 0 <= k < |v.requests| ensures StageOk(sv, v, v.requests[k]) {
      if k < |w.requests| && k != r { assert StageOk(sv, w, w.requests[k]); }
    }
  }

  lemma PresentKeepsInv(sv: Server, w: World, token: string, from: nat)
    requires Inv(sv, w) && Enabled(sv, w, Present(token, from))
    ensures Inv(sv, After(sv, w, Present(token, from)))
  {
    CarriedNames(sv, token, w.issued[from]);
    Keep(sv, w, After(sv, w, Present(token, from)), |w.requests|);
  }

  lemma CheckTimeKeepsInv(sv: Server, w: World, r: nat)
    requires Inv(sv, w) && Enabled(sv, w, CheckTime(r))
    ensures Inv(sv, After(sv, w, CheckTime(r)))
  {
    var q := w.requests[r];
    assert StageOk(sv, w, q) && IssueOk(w, w.issued[q.from]);
    ServerTimestamp(w.issued[q.from].time, w.clock, sv.expiry);
    Keep(sv, w, After(sv, w, CheckTime(r)), r);
  }

  lemma CheckIdKeepsInv(sv: Server, w: World, r: nat)
    requires Inv(sv, w) && Enabled(sv, w, CheckId(r))
    ensures Inv(sv, After(sv, w, CheckId(r)))
  {
    assert StageOk(sv, w, w.requests[r]);
    Keep(sv, w, After(sv, w, CheckId(r)), r);
  }

  lemma DropKeepsInv(sv: Server, w: World, a: Action)
    requires Inv(sv, w) && (a.DropLate? || a.Logout?) && Enabled(sv, w, a)
    ensures Inv(sv, After(sv, w, a))
  {
    MessagesStep(w.history, Dropped(w.requests[a.r].uad.uid, w.requests[a.r].uad.tokenId));
    Keep(sv, w, After(sv, w, a), a.r);
  }

  lemma RefreshKeepsInv(sv: Server, w: World, r: nat)
    requires Inv(sv, w) && Enabled(sv, w, Refresh(r))
    ensures Inv(sv, After(sv, w, Refresh(r)))
  {
    assert StageOk(sv, w, w.requests[r]) && IssueOk(w, w.issued[w.requests[r].from]);
    Keep(sv, w, After(sv, w, Refresh(r)), r);
  }

  lemma LoginMintKeepsInv(sv: Server, w: World, uid: string, role: string, id: string)
    requires Inv(sv, w)
    ensures Inv(sv, After(sv, w, LoginMint(uid, role, id)))
  {
    MessagesStep(w.history, Minted(uid, role, id));
    Keep(sv, w, After(sv, w, LoginMint(uid, role, id)), |w.requests|);
  }

  lemma LoginIssueKeepsInv(sv: Server, w: World, r: nat)
    requires Inv(sv, w) && Enabled(sv, w, LoginIssue(r))
    ensures Inv(sv, After(sv, w, LoginIssue(r)))
  {
    assert StageOk(sv, w, w.requests[r]);
    Keep(sv, w, After(sv, w, LoginIssue(r)), r);
  }

  lemma StepKeepsInv(sv: Server, w: World, v: World)
    requires Inv(sv, w) && Step(sv, w, v)
    ensures Inv(sv, v) && w.history <= v.history
  {
    var a :| StepBy(sv, w, a, v);
    match a {
      case Tick(_) => Keep(sv, w, v, 0);
      case Present(token, from) => PresentKeepsInv(sv, w, token, from);
      case CheckTime(r) => CheckTimeKeepsInv(sv, w, r);
      case CheckId(r) => CheckIdKeepsInv(sv, w, r);
      case DropLate(_) => DropKeepsInv(sv, w, a);
      case Logout(_) => DropKeepsInv(sv, w, a);
      case Refresh(r) => RefreshKeepsInv(sv, w, r);
      case Serve(r) => Keep(sv, w, v, r);
      case LoginMint(uid, role, id) => LoginMintKeepsInv(sv, w, uid, role, id);
      case LoginIssue(r) => LoginIssueKeepsInv(sv, w, r);
    }
  }

  lemma {:induction false} InvAlways(sv: Server, run: seq<World>, i: nat)
    requires Behaviour(sv, run) && i < |run|
    ensures Inv(sv, run[i])
  {
    if i > 0 {
      InvAlways(sv, run, i - 1);
      assert StepAt(sv, run, i);
      StepKeepsInv(sv, run[i - 1], run[i]);
    }
  }

  lemma {:induction false} HistoryGrows(sv: Server, run: seq<World>, i: nat, j: nat)
    requires Behaviour(sv, run) && i <= j < |run|
    ensures run[i].history <= run[j].history
  {
    if i < j {
      HistoryGrows(sv, run, i, j - 1);
      InvAlways(sv, run, j - 1);
      assert StepAt(sv, run, j);
      StepKeepsInv(sv, run[j - 1], run[j]);
    }
  }

  // ------------------------------------------------------------------------- the theorems

  /** The id was minted for the user by some login and not dropped since. */
  ghost predicate Alive(history: seq<Event>, uid: string, tokenId: string) {
    exists k :: 0 <= k < |history| && MintOf(history[k], uid, tokenId) && Undropped(history, k, uid, tokenId)
  }

  predicate MintOf(e: Event, uid: string, tokenId: string) { e.Minted? && e.uid == uid && e.tokenId == tokenId }

  ghost predicate Undropped(history: seq<Event>, k: int, uid: string, tokenId: string) {
    forall j :: k < j < |history| && 0 <= j ==> history[j] != Dropped(uid, tokenId)
  }

  lemma LiveMeansAlive(history: seq<Event>, uid: string, tokenId: string)
    requires IsLive(Run(INITIAL, Messages(history)), uid, tokenId)
    ensures Alive(history, uid, tokenId)
  {
    var log := Messages(history);
    LiveExactly(log, uid, tokenId);
    var clears := m => Deletes(m, uid, tokenId);
    var k :| 0 <= k < |log| && Adds(log[k], uid, tokenId) && Uncleared(log, k, clears);
    assert MintOf(history[k], uid, tokenId);
    forall j | k < j < |history| && 0 <= j ensures history[j] != Dropped(uid, tokenId) {
      assert !clears(log[j]);
    }
    assert Undropped(history, k, uid, tokenId);
  }

  /** In this step the gate lets the caller of request `r` through to a handler. */
  ghost predicate AcceptsAt(sv: Server, run: seq<World>, i: nat, r: nat) {
    && i + 1 < |run| && r < |run[i].requests| && run[i].requests[r].InTime?
    && StepBy(sv, run[i], CheckId(r), run[i + 1]) && run[i + 1].requests[r].Accepted?
  }

  /**
   * Every accepted token goes back, through however many refreshes, to one login with the same uid,
   * role and token id; it is younger than the token lifetime; and its id is alive.
   */
  lemma AcceptedTracesToLogin(sv: Server, run: seq<World>, i: nat, r: nat)
    requires Behaviour(sv, run) && AcceptsAt(sv, run, i, r)
    ensures var q := run[i].requests[r];
      && q.from < |run[i].issued|
      && NamedBy(q.uad, run[i].issued[q.from])
      && run[i].issued[q.from].login < |run[i].history|
      && run[i].history[run[i].issued[q.from].login] == Minted(q.uad.uid, q.uad.role, q.uad.tokenId)
      && q.now < run[i].issued[q.from].time + sv.expiry
      && Alive(run[i].history, q.uad.uid, q.uad.tokenId)
  {
    InvAlways(sv, run, i);
    var q := run[i].requests[r];
    assert StageOk(sv, run[i], q) && IssueOk(run[i], run[i].issued[q.from]);
    LiveMeansAlive(run[i].history, q.uad.uid, q.uad.tokenId);
  }

  /** In this step a logout or an expired presentation ends the session of an id. */
  ghost predicate EndsSession(sv: Server, w: World, r: nat, v: World, uid: string, tokenId: string) {
    && r < |w.requests|
    && (w.requests[r].Accepted? || w.requests[r].Late?)
    && w.requests[r].uad.uid == uid && w.requests[r].uad.tokenId == tokenId
    && (StepBy(sv, w, Logout(r), v) || StepBy(sv, w, DropLate(r), v))
  }

  /**
   * After a logout, or an expired presentation, of an id, no token carrying it is accepted, whenever it
   * was issued or refreshed, until a login has minted the id again.
   */
  lemma NoneAcceptedUntilMintedAgain(sv: Server, run: seq<World>, i: nat, d: nat, j: nat, r: nat, uid: string,
                                     tokenId: string)
    requires Behaviour(sv, run) && i < j < |run| && EndsSession(sv, run[i], d, run[i + 1], uid, tokenId)
    requires AcceptsAt(sv, run, j, r) && run[j].requests[r].uad.uid == uid && run[j].requests[r].uad.tokenId == tokenId
    ensures exists k :: |run[i + 1].history| <= k < |run[j].history| && MintOf(run[j].history[k], uid, tokenId)
  {
    AcceptedTracesToLogin(sv, run, j, r);
    HistoryGrows(sv, run, i + 1, j);
    var at := |run[i + 1].history| - 1;
    assert run[i + 1].history[at] == Dropped(uid, tokenId);
    var k :| 0 <= k < |run[j].history| && MintOf(run[j].history[k], uid, tokenId)
      && Undropped(run[j].history, k, uid, tokenId);
    assert run[j].history[at] == Dropped(uid, tokenId);
  }
}
