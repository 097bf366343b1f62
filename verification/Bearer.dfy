/** Bearer tokens (security/auth.go) and the gate every request passes (cmd/cogged/main.go). */
module Bearer {
  import opened Graph
  import opened Text
  import opened Base64Url
  import opened AuthzData
  import opened Session

  /** The server's MAC, its key, the derivation of a user's key, and the token lifetime in seconds. */
  datatype Server = Server(mac: Mac, key: string, keyFor: (string, string, string) -> string, expiry: nat)

  function TokenText(uid: string, role: string, tokenId: string, timestamp: string): string {
    uid + "." + role + "." + tokenId + "." + timestamp
  }

  function ConstructToken(sv: Server, uid: string, role: string, tokenId: string, timestamp: string): string
    requires ByteString(TokenText(uid, role, tokenId, timestamp))
  {
    MessageAndMAC(sv.mac, TokenText(uid, role, tokenId, timestamp), sv.key)
  }

  /** The caller that a verified token text names: exactly four parts. */
  function CallerOf(sv: Server, text: string): Option<Caller> {
    var up := Split(text, '.');
    if |up| != 4 then None else Some(Caller(up[0], up[1], up[2], up[3], sv.keyFor(sv.key, up[0], up[1])))
  }

  function UADFromToken(sv: Server, token: string): Option<Caller> {
    match Verified(sv.mac, token, sv.key)
    case None => None
    case Some(t64) => CallerOf(sv, StringOf(Decode(t64)))
  }

  predicate NoDots(uid: string, role: string, tokenId: string, timestamp: string) {
    '.' !in uid && '.' !in role && '.' !in tokenId && '.' !in timestamp
  }

  lemma FourPieces(a: string, b: string, c: string, d: string)
    ensures Split(TokenText(a, b, c, d), '.') == Split(a, '.') + (Split(b, '.') + (Split(c, '.') + Split(d, '.')))
  {
    assert TokenText(a, b, c, d) == a + ['.'] + (b + ['.'] + (c + ['.'] + d));
    SplitAround(a, '.', b + ['.'] + (c + ['.'] + d));
    SplitAround(b, '.', c + ['.'] + d);
    SplitAround(c, '.', d);
  }

  lemma OnePieceIffNone(s: string)
    ensures |Split(s, '.')| == 1 <==> '.' !in s
    ensures '.' !in s ==> Split(s, '.') == [s]
  {
    if '.' !in s {
      SplitNone(s, '.');
    } else {
      JoinOfSplit(s, '.');
      var parts := Split(s, '.');
      assert parts[0] in parts;
    }
  }

  /** A token text names its own four fields, or, if a field has a dot, nobody at all. */
  lemma CallerOfOwnText(sv: Server, uid: string, role: string, tokenId: string, timestamp: string)
    ensures CallerOf(sv, TokenText(uid, role, tokenId, timestamp))
         == if NoDots(uid, role, tokenId, timestamp)
            then Some(Caller(uid, role, tokenId, timestamp, sv.keyFor(sv.key, uid, role)))
            else None
  {
    FourPieces(uid, role, tokenId, timestamp);
    OnePieceIffNone(uid);
    OnePieceIffNone(role);
    OnePieceIffNone(tokenId);
    OnePieceIffNone(timestamp);
  }

  /** Round trip of bearer tokens, for all fields: faithful exactly when no field has a dot. */
  lemma TokenRoundTrip(sv: Server, uid: string, role: string, tokenId: string, timestamp: string)
    requires ByteString(TokenText(uid, role, tokenId, timestamp))
    ensures UADFromToken(sv, ConstructToken(sv, uid, role, tokenId, timestamp))
         == if NoDots(uid, role, tokenId, timestamp)
            then Some(Caller(uid, role, tokenId, timestamp, sv.keyFor(sv.key, uid, role)))
            else None
  {
    var text := TokenText(uid, role, tokenId, timestamp);
    VerifyOwn(sv.mac, text, sv.key);
    DecodeEncode(BytesOf(text));
    StringOfBytesOf(text);
    CallerOfOwnText(sv, uid, role, tokenId, timestamp);
  }

  // --------------------------------------------------------------------------- timestamps

  const TWO_63 := 0x8000_0000_0000_0000

  /** int64 subtraction wraps around. */
  function Wrap64(x: int): int { (x + TWO_63) % (2 * TWO_63) - TWO_63 }

  predicate AllDigits(s: string) { s != "" && forall k :: 0 <= k < |s| ==> '0' <= s[k] <= '9' }

  /** `strconv.ParseInt(s, 10, 64)`, with every error turned into zero. */
  function Epoch(s: string): int {
    var signed := s != "" && (s[0] == '-' || s[0] == '+');
    var digits := if signed then s[1..] else s;
    if !AllDigits(digits) then 0
    else
      var n: int := DigitsValue(digits);
      if signed && s[0] == '-' then if n <= TWO_63 then -n else 0
      else if n < TWO_63 then n
      else 0
  }

  predicate CheckTimestamp(timestamp: string, now: int, expiry: nat) {
    Wrap64(now - Epoch(timestamp)) < expiry
  }

  lemma NoWrap(x: int)
    requires -TWO_63 <= x < TWO_63
    ensures Wrap64(x) == x
  {
  }

  lemma EpochOfDecimal(time: nat)
    requires time < TWO_63
    ensures Epoch(Decimal(time)) == time
  {
    DecimalValue(time);
  }

  /** A server-made timestamp passes exactly for `expiry` seconds from its own time, and before it. */
  lemma ServerTimestamp(time: nat, now: nat, expiry: nat)
    requires time < TWO_63 && now < TWO_63
    ensures CheckTimestamp(Decimal(time), now, expiry) <==> now < time + expiry
  {
    EpochOfDecimal(time);
    NoWrap(now - time);
  }

  // ----------------------------------------------------------------------------- the gate

  const LOGIN_PATH := "/auth/login"
  const CLIENT_CONFIG_PATH := "/auth/clientconfig"
  const STATUS_PATH := "/health/status"
  const ADMIN_GROUP := "admin"
  const JSON := "application/json"
  const BEARER := "Bearer "

  /** The routes that need no token. */
  predicate Unauthenticated(path: string) { path == LOGIN_PATH || path == CLIENT_CONFIG_PATH || path == STATUS_PATH }

  /** A refusal with its HTTP status, an index panic on a path of one segment, or a dispatch to a handler. */
  datatype Decision =
    | Refuse(code: nat)
    | IndexPanic
    | Dispatch(group: string, endpoint: string, param: string, uad: Option<Caller>)

  /** The caller that the headers prove, before any check of time or session. */
  function Presented(sv: Server, authHdr: seq<string>): Option<Caller> {
    if |authHdr| == 1 && BEARER <= authHdr[0] then
      var parts := Split(authHdr[0], ' ');
      if |parts| > 1 then UADFromToken(sv, parts[1]) else None
    else None
  }

  predicate Expired(sv: Server, now: int, authHdr: seq<string>) {
    var u := Presented(sv, authHdr);
    u.Some? && !CheckTimestamp(u.value.timestamp, now, sv.expiry)
  }

  lemma BearerHasToken(hdr: string)
    requires BEARER <= hdr
    ensures |Split(hdr, ' ')| > 1
  {
    var word := BEARER[..|BEARER| - 1];
    assert hdr == word + [' '] + hdr[|BEARER|..];
    SplitAround(word, ' ', hdr[|BEARER|..]);
  }

  /** What the token check leaves of the session state: an authentic but late token ends its session. */
  function AfterCheck(sv: Server, s: State, now: int, authHdr: seq<string>): State {
    if Expired(sv, now, authHdr) then
      var u := Presented(sv, authHdr).value;
      Next(s, Message(TokenDel, u.uid, u.tokenId))
    else s
  }

  /**
   * A late token's own id is dead afterwards; any other id, and every allowlist, is as before, and all of them are
   * if the token is not late.
   */
  ghost predicate LateEnds(before: State, after: State, presented: Option<Caller>, late: bool) {
    && after.allow == before.allow
    && forall uid, id ::
         if late && presented.Some? && presented.value.uid == uid && presented.value.tokenId == id
         then !IsLive(after, uid, id)
         else IsLive(after, uid, id) <==> IsLive(before, uid, id)
  }

  lemma LateTokenEnds(sv: Server, s: State, now: int, authHdr: seq<string>)
    ensures LateEnds(s, AfterCheck(sv, s, now, authHdr), Presented(sv, authHdr),
                     Presented(sv, authHdr).Some?
                     && !CheckTimestamp(Presented(sv, authHdr).value.timestamp, now, sv.expiry))
  {
  }

  predicate Accepts(sv: Server, s: State, now: int, authHdr: seq<string>) {
    var u := Presented(sv, authHdr);
    u.Some? && !Expired(sv, now, authHdr) && IsLive(s, u.value.uid, u.value.tokenId)
  }

  lemma AfterBearer(hdr: string)
    requires BEARER <= hdr
    ensures |Split(hdr, ' ')| > 1 && Split(hdr, ' ')[1] == Split(hdr[7..], ' ')[0]
  {
    var word := BEARER[..6];
    assert hdr == word + [' '] + hdr[7..];
    SplitAt(word, ' ', hdr[7..]);
  }

  /** Only a header of the Bearer scheme presents anybody: whom the first word after it verifies as. */
  lemma PresentedExactly(sv: Server, authHdr: seq<string>)
    ensures Presented(sv, authHdr)
         == if |authHdr| == 1 && "Bearer " <= authHdr[0] then UADFromToken(sv, Split(authHdr[0][7..], ' ')[0]) else None
  {
    if |authHdr| == 1 && BEARER <= authHdr[0] { AfterBearer(authHdr[0]); }
  }

  /** Who is accepted: a caller presented that way whose token is young and whose session is live. */
  lemma AcceptsExactly(sv: Server, s: State, now: int, authHdr: seq<string>)
    ensures Accepts(sv, s, now, authHdr)
       <==> && |authHdr| == 1 && "Bearer " <= authHdr[0]
            && var u := UADFromToken(sv, Split(authHdr[0][7..], ' ')[0]);
               u.Some? && CheckTimestamp(u.value.timestamp, now, sv.expiry) && IsLive(s, u.value.uid, u.value.tokenId)
  {
    PresentedExactly(sv, authHdr);
  }

  /** The token part of `ServeHTTP`. */
  method CheckToken(sv: Server, usm: SessionManager, now: int, authHdr: seq<string>)
      returns (refused: bool, userAuthData: Option<Caller>)
    modifies usm
    ensures usm.Abs() == AfterCheck(sv, old(usm.Abs()), now, authHdr)
    ensures refused <==> Presented(sv, authHdr).Some? && !Accepts(sv, old(usm.Abs()), now, authHdr)
    ensures !refused ==> userAuthData == Presented(sv, authHdr)
  {
    userAuthData := None;
    refused := false;
    if |authHdr| == 1 && BEARER <= authHdr[0] {
      BearerHasToken(authHdr[0]);
      var tokStr := Split(authHdr[0], ' ')[1];
      userAuthData := UADFromToken(sv, tokStr);
      if userAuthData.Some? {
        var u := userAuthData.value;
        if !CheckTimestamp(u.timestamp, now, sv.expiry) {
          var _ := usm.Handle(Message(TokenDel, u.uid, u.tokenId));
          return true, None;
        }
        var answer := usm.Handle(Message(TokenGet, u.uid, u.tokenId));
        refused := answer != Some(OK);
      }
    }
  }

  function Segments(path: string): seq<string> { Split(path, '/') }

  predicate IsJson(ctype: seq<string>) { |ctype| == 1 && JSON <= ctype[0] }

  /** A JSON request for `/group/...`; the token is looked at only then. */
  predicate Routed(ctype: seq<string>, path: string) {
    IsJson(ctype) && |Segments(path)| >= 2 && Segments(path)[1] != ""
  }

  /**
   * Who may pass once the token is checked: sys only in the admin group, or nobody at all on an open route
   * elsewhere.
   */
  predicate Passes(uad: Option<Caller>, path: string, group: string) {
    match uad
    case Some(u) => group == ADMIN_GROUP ==> u.IsAdmin()
    case None => Unauthenticated(path) && group != ADMIN_GROUP
  }

  predicate Entitled(sv: Server, s: State, now: int, authHdr: seq<string>, path: string, group: string) {
    && (Presented(sv, authHdr).Some? ==> Accepts(sv, s, now, authHdr))
    && Passes(Presented(sv, authHdr), path, group)
  }

  /** A path of two pieces is served whatever its group: it panics before the group is looked up. */
  predicate Served(sv: Server, s: State, now: int, authHdr: seq<string>, path: string, parts: seq<string>)
    requires |parts| >= 2
  {
    Entitled(sv, s, now, authHdr, path, parts[1]) && (|parts| > 2 ==> KnownGroup(parts[1]))
  }

  predicate LetsIn(sv: Server, s: State, now: int, ctype: seq<string>, authHdr: seq<string>, path: string) {
    Routed(ctype, path) && Served(sv, s, now, authHdr, path, Segments(path))
  }

  /**
   * What a request that is not let in is told: its media type, its path, its token or its route is wrong, in
   * this order.
   */
  function StatusOf(sv: Server, s: State, now: int, ctype: seq<string>, authHdr: seq<string>, path: string): nat {
    if !IsJson(ctype) then 415
    else if !Routed(ctype, path) then 400
    else if !Entitled(sv, s, now, authHdr, path, Segments(path)[1]) then 401
    else 404
  }

  predicate DispatchedTo(d: Decision, parts: seq<string>)
    requires d.Dispatch?
  {
    && |parts| > 2 && d.group == parts[1] && d.endpoint == parts[2]
    && d.param == if |parts| > 3 then parts[3] else ""
  }

  /** The part of `ServeHTTP` after the token check, for a path with a group. */
  method Route(uad: Option<Caller>, path: string, parts: seq<string>) returns (d: Decision)
    requires |parts| >= 2
    ensures d.Refuse? <==> !Passes(uad, path, parts[1]) || (|parts| > 2 && !KnownGroup(parts[1]))
    ensures d.Refuse? ==> d.code == if Passes(uad, path, parts[1]) then 404 else 401
    ensures d.IndexPanic? <==> Passes(uad, path, parts[1]) && |parts| == 2
    ensures d.Dispatch? ==> d.uad == uad && DispatchedTo(d, parts)
  {
    var routeGroup := parts[1];
    if uad.None? && !Unauthenticated(path) {
      return Refuse(401);
    }
    if routeGroup == ADMIN_GROUP && (uad.None? || !uad.value.IsAdmin()) {
      return Refuse(401);
    }
    if |parts| < 3 {
      return IndexPanic;
    }
    if !KnownGroup(routeGroup) {
      return Refuse(404);
    }
    d := Dispatch(routeGroup, parts[2], if |parts| > 3 then parts[3] else "", uad);
  }

  /** The part of `ServeHTTP` before the token check. */
  method ReadPath(ctype: seq<string>, urlPath: string) returns (code: Option<nat>, path: string, parts: seq<string>)
    ensures path == TrimSpace(urlPath) && parts == Segments(path)
    ensures code.None? <==> Routed(ctype, path)
    ensures code.Some? ==> code.value == if IsJson(ctype) then 400 else 415
  {
    path := TrimSpace(urlPath);
    parts := Split(path, '/');
    if !IsJson(ctype) {
      return Some(415), path, parts;
    }
    if |parts| < 2 || parts[1] == "" {
      return Some(400), path, parts;
    }
    code := None;
  }

  /** The token check and what follows it. */
  method CheckAndRoute(sv: Server, usm: SessionManager, now: int, authHdr: seq<string>, path: string,
      parts: seq<string>) returns (d: Decision)
    requires |parts| >= 2
    modifies usm
    ensures usm.Abs() == AfterCheck(sv, old(usm.Abs()), now, authHdr)
    ensures d.Refuse? <==> !Served(sv, old(usm.Abs()), now, authHdr, path, parts)
    ensures d.Refuse? ==> d.code == if Entitled(sv, old(usm.Abs()), now, authHdr, path, parts[1]) then 404 else 401
    ensures d.IndexPanic? <==> Served(sv, old(usm.Abs()), now, authHdr, path, parts) && |parts| == 2
    ensures d.Dispatch? ==> d.uad == Presented(sv, authHdr) && DispatchedTo(d, parts)
  {
    var refused, userAuthData := CheckToken(sv, usm, now, authHdr);
    if refused {
      return Refuse(401);
    }
    d := Route(userAuthData, path, parts);
  }

  /** The three routes that need no token. */
  predicate OpenPath(path: string) { path == "/auth/login" || path == "/auth/clientconfig" || path == "/health/status" }

  /** The five groups that have a handler. */
  predicate HandledGroup(group: string) {
    group == "health" || group == "auth" || group == "admin" || group == "graph" || group == "user"
  }

  predicate MayEnter(presented: Option<Caller>, accepted: bool, group: string) {
    presented.Some? && accepted && (group == "admin" ==> presented.value.role == "sys")
  }

  /**
   * What the gate keeps, in the routes' own names: the admin group is for sys only, whoever comes without a
   * token gets to the three open routes only, and nobody whose token is refused gets anywhere; everybody else
   * with a JSON request to a handled group does. A refusal tells what was wrong.
   */
  predicate GateKept(d: Decision, ctype: seq<string>, path: string, presented: Option<Caller>, accepted: bool) {
    var parts := Split(path, '/');
    var json := |ctype| == 1 && "application/json" <= ctype[0];
    && (d.Dispatch? && d.group == "admin" ==> d.uad.Some? && d.uad.value.role == "sys")
    && (d.Dispatch? && d.uad.None? ==> OpenPath(path))
    && (d.Dispatch? && d.uad.Some? ==> accepted)
    && (json && |parts| > 2 && HandledGroup(parts[1]) && MayEnter(presented, accepted, parts[1]) ==> d.Dispatch?)
    && (json && presented.None? && OpenPath(path) ==> d.Dispatch?)
    && (d == Refuse(415) <==> !json)
    && (d == Refuse(400) <==> json && (|parts| < 2 || parts[1] == ""))
    && (d == Refuse(404) ==> |parts| > 2 && !HandledGroup(parts[1]))
    && (d.Refuse? ==> d.code == 415 || d.code == 400 || d.code == 401 || d.code == 404)
  }

  lemma ThreeSegments(path: string, a: string, b: string)
    requires path == ['/'] + a + ['/'] + b && '/' !in a && '/' !in b
    ensures Split(path, '/') == ["", a, b]
  {
    assert path == "" + ['/'] + (a + ['/'] + b);
    SplitAt("", '/', a + ['/'] + b);
    SplitAt(a, '/', b);
    SplitNone(b, '/');
  }

  lemma GroupOfSegments(path: string, a: string, b: string)
    requires path == ['/'] + a + ['/'] + b && '/' !in a && '/' !in b && (a == "auth" || a == "health")
    ensures |Split(path, '/')| == 3 && HandledGroup(Split(path, '/')[1]) && Split(path, '/')[1] != "admin"
  {
    ThreeSegments(path, a, b);
  }

  /** The open routes all have a group and an endpoint, outside the admin group. */
  lemma OpenPathIsHandled(path: string)
    requires OpenPath(path)
    ensures |Split(path, '/')| == 3 && HandledGroup(Split(path, '/')[1]) && Split(path, '/')[1] != "admin"
  {
    if path == "/auth/login" {
      GroupOfSegments(path, "auth", "login");
    } else if path == "/auth/clientconfig" {
      GroupOfSegments(path, "auth", "clientconfig");
    } else {
      GroupOfSegments(path, "health", "status");
    }
  }

  lemma GroupsSpelledOut(group: string)
    ensures KnownGroup(group) <==> HandledGroup(group)
  {
  }

  lemma JsonSpelledOut(ctype: seq<string>)
    ensures IsJson(ctype) <==> |ctype| == 1 && "application/json" <= ctype[0]
  {
  }

  lemma PassesSpelledOut(uad: Option<Caller>, path: string, group: string)
    ensures Passes(uad, path, group)
       <==> if uad.Some? then group == "admin" ==> uad.value.role == "sys" else group != "admin" && OpenPath(path)
  {
  }

  /** What is let in as `LetsIn` says is what the gate should keep. */
  lemma LetInIsKept(d: Decision, sv: Server, s: State, now: int, ctype: seq<string>, authHdr: seq<string>, path: string)
    requires d.Refuse? <==> !LetsIn(sv, s, now, ctype, authHdr, path)
    requires d.Refuse? ==> d.code == StatusOf(sv, s, now, ctype, authHdr, path)
    requires d.IndexPanic? <==> LetsIn(sv, s, now, ctype, authHdr, path) && |Segments(path)| == 2
    requires d.Dispatch? ==> d.uad == Presented(sv, authHdr) && DispatchedTo(d, Segments(path))
    ensures GateKept(d, ctype, path, Presented(sv, authHdr), Accepts(sv, s, now, authHdr))
  {
    JsonSpelledOut(ctype);
    var parts := Segments(path);
    if |parts| >= 2 {
      GroupsSpelledOut(parts[1]);
      PassesSpelledOut(Presented(sv, authHdr), path, parts[1]);
    }
    if OpenPath(path) { OpenPathIsHandled(path); }
  }

  /**
   * `ServeHTTP` up to the dispatch. A handler runs exactly for JSON requests to a known route by someone
   * entitled to it, with the caller that the token names, and a path of one segment panics instead; anyone
   * else is told what is wrong. The session state changes in one case only: an authentic but late token
   * ends its own session.
   */
  method ServeHTTP(sv: Server, usm: SessionManager, now: int, ctype: seq<string>, authHdr: seq<string>, urlPath: string)
      returns (d: Decision)
    modifies usm
    ensures d.Refuse? <==> !LetsIn(sv, old(usm.Abs()), now, ctype, authHdr, TrimSpace(urlPath))
    ensures d.Refuse? ==> d.code == StatusOf(sv, old(usm.Abs()), now, ctype, authHdr, TrimSpace(urlPath))
    ensures d.IndexPanic? <==>
      LetsIn(sv, old(usm.Abs()), now, ctype, authHdr, TrimSpace(urlPath)) && |Segments(TrimSpace(urlPath))| == 2
    ensures d.Dispatch? ==> d.uad == Presented(sv, authHdr) && DispatchedTo(d, Segments(TrimSpace(urlPath)))
    ensures usm.Abs() ==
      if Routed(ctype, TrimSpace(urlPath)) then AfterCheck(sv, old(usm.Abs()), now, authHdr) else old(usm.Abs())
    ensures GateKept(d, ctype, TrimSpace(urlPath), Presented(sv, authHdr), Accepts(sv, old(usm.Abs()), now, authHdr))
    ensures LateEnds(old(usm.Abs()), usm.Abs(), Presented(sv, authHdr),
                     d != Refuse(415) && d != Refuse(400) && Presented(sv, authHdr).Some?
                     && !CheckTimestamp(Presented(sv, authHdr).value.timestamp, now, sv.expiry))
  {
    ghost var s := usm.Abs();
    LateTokenEnds(sv, s, now, authHdr);
    var code, path, routeParts := ReadPath(ctype, urlPath);
    if code.Some? {
      d := Refuse(code.value);
    } else {
      d := CheckAndRoute(sv, usm, now, authHdr, path, routeParts);
    }
    LetInIsKept(d, sv, s, now, ctype, authHdr, path);
  }

  /** A path of one segment is no open route, so only an accepted caller passes on one outside the admin group. */
  lemma OneSegmentEntitles(sv: Server, s: State, now: int, authHdr: seq<string>, path: string, group: string)
    requires |Split(path, '/')| == 2 && group != ADMIN_GROUP
    ensures Entitled(sv, s, now, authHdr, path, group) <==> Accepts(sv, s, now, authHdr)
  {
    if Unauthenticated(path) { OpenPathIsHandled(path); }
  }

  /**
   * Everybody with a good token can make it panic, and nobody else: with a path of one segment outside the
   * admin group.
   */
  lemma OneSegmentPanics(sv: Server, s: State, now: int, authHdr: seq<string>, path: string)
    requires |Segments(path)| == 2 && Segments(path)[1] != "" && Segments(path)[1] != ADMIN_GROUP
    ensures LetsIn(sv, s, now, [JSON], authHdr, path) <==> Accepts(sv, s, now, authHdr)
  {
    OneSegmentEntitles(sv, s, now, authHdr, path, Segments(path)[1]);
  }

  /** Such a path: a slash and a group. */
  lemma SlashAndGroup(path: string, group: string)
    requires path == ['/'] + group && '/' !in group
    ensures Segments(path) == ["", group]
  {
    assert path == "" + ['/'] + group;
    SplitAt("", '/', group);
    SplitNone(group, '/');
  }

  /** "/graph" is one. */
  lemma GraphIsOneSegment() returns (path: string)
    ensures path == "/graph" && Segments(path) == ["", path[1..]] && path[1..] != "" && path[1..] != ADMIN_GROUP
    ensures TrimSpace(path) == path
  {
    path := "/graph";
    SlashAndGroup(path, path[1..]);
    TrimSpaceFixed(path);
  }

  predicate KnownGroup(group: string) {
    group == "health" || group == "auth" || group == ADMIN_GROUP || group == "graph" || group == "user"
  }

  // ----------------------------------------------------------------- login, refresh, logout

  /** "POST login" once the password is verified; `nti` is the new token id. */
  method PostLogin(sv: Server, usm: SessionManager, uid: string, role: string, nti: string, now: nat)
      returns (token: string)
    requires ByteString(TokenText(uid, role, nti, Decimal(now)))
    modifies usm
    ensures usm.Abs() == Next(old(usm.Abs()), Message(TokenAdd, uid, nti))
    ensures uid != "" ==> IsLive(usm.Abs(), uid, nti)
    ensures token == ConstructToken(sv, uid, role, nti, Decimal(now))
  {
    var _ := usm.Handle(Message(TokenAdd, uid, nti));
    token := ConstructToken(sv, uid, role, nti, Decimal(now));
  }

  /**
   * "GET refresh". A caller who came with a verified token gets one that names the same user, role, id
   * and key with a new timestamp. The session manager is not asked, so a dead session stays dead.
   */
  method GetRefresh(sv: Server, token: string, uad: Caller, now: nat) returns (newToken: string)
    requires UADFromToken(sv, token) == Some(uad)
    ensures UADFromToken(sv, newToken) == Some(uad.(timestamp := Decimal(now)))
    ensures now < TWO_63 ==> CheckTimestamp(Decimal(now), now, sv.expiry) == (sv.expiry > 0)
  {
    PresentedAreBytes(sv, token);
    DecimalIsPlain(now);
    TokenIsBytes(uad.uid, uad.role, uad.tokenId, Decimal(now));
    newToken := ConstructToken(sv, uad.uid, uad.role, uad.tokenId, Decimal(now));
    TokenRoundTrip(sv, uad.uid, uad.role, uad.tokenId, Decimal(now));
    if now < TWO_63 { ServerTimestamp(now, now, sv.expiry); }
  }

  lemma DecimalIsPlain(n: nat)
    ensures ByteString(Decimal(n)) && '.' !in Decimal(n)
  {
  }

  lemma TokenIsBytes(uid: string, role: string, tokenId: string, timestamp: string)
    requires ByteString(uid) && ByteString(role) && ByteString(tokenId) && ByteString(timestamp)
    ensures ByteString(TokenText(uid, role, tokenId, timestamp))
  {
  }

  lemma {:induction false} PiecesOfBytes(s: string)
    requires ByteString(s)
    ensures forall p :: p in Split(s, '.') ==> ByteString(p)
  {
    if s != "" {
      var tail := s[1..];
      assert forall k :: 0 <= k < |tail| ==> tail[k] == s[k + 1];
      PiecesOfBytes(tail);
      var rest := Split(tail, '.');
      assert rest[0] in rest;
      forall p | p in Split(s, '.') ensures ByteString(p) {
        if p !in rest && s[0] != '.' { assert p == [s[0]] + rest[0]; }
      }
    }
  }

  /** The fields of a verified caller are byte strings without dots. */
  lemma PresentedAreBytes(sv: Server, token: string)
    requires UADFromToken(sv, token).Some?
    ensures var u := UADFromToken(sv, token).value;
      && ByteString(u.uid) && ByteString(u.role) && ByteString(u.tokenId)
      && '.' !in u.uid && '.' !in u.role && '.' !in u.tokenId
      && u.key == sv.keyFor(sv.key, u.uid, u.role)
  {
    var text := StringOf(Decode(Verified(sv.mac, token, sv.key).value));
    var up := Split(text, '.');
    PiecesOfBytes(text);
    assert up[0] in up && up[1] in up && up[2] in up;
  }

  /** "POST logout". */
  method PostLogout(usm: SessionManager, uad: Caller)
    modifies usm
    ensures usm.Abs() == Next(old(usm.Abs()), Message(TokenDel, uad.uid, uad.tokenId))
    ensures !IsLive(usm.Abs(), uad.uid, uad.tokenId)
  {
    var _ := usm.Handle(Message(TokenDel, uad.uid, uad.tokenId));
  }

  lemma TokenHasNoSpace(sv: Server, text: string)
    requires ByteString(text)
    ensures ' ' !in MessageAndMAC(sv.mac, text, sv.key)
  {
    var m64 := Encode(BytesOf(text));
    var tag := Encode(sv.mac(m64, Decode(sv.key)));
    assert MessageAndMAC(sv.mac, text, sv.key) == m64 + "." + tag;
    assert ' ' !in m64 && ' ' !in tag;
  }

  lemma HeaderCarries(token: string)
    requires ' ' !in token
    ensures Split(BEARER + token, ' ') == ["Bearer", token]
  {
    var word := "Bearer";
    assert BEARER + token == word + [' '] + token;
    SplitAt(word, ' ', token);
    SplitNone(token, ' ');
  }

  /**
   * The gate lets a server-made token in exactly as long as its id is live and it is younger than the
   * token lifetime, for any fields without a dot; with a dot in one of them, never.
   */
  lemma AcceptedWhileLiveAndYoung(sv: Server, s: State, uid: string, role: string, id: string, time: nat, now: nat)
    requires ByteString(TokenText(uid, role, id, Decimal(time))) && time < TWO_63 && now < TWO_63
    ensures Accepts(sv, s, now, [BEARER + ConstructToken(sv, uid, role, id, Decimal(time))])
       <==> NoDots(uid, role, id, Decimal(time)) && IsLive(s, uid, id) && now < time + sv.expiry
  {
    var token := ConstructToken(sv, uid, role, id, Decimal(time));
    TokenHasNoSpace(sv, TokenText(uid, role, id, Decimal(time)));
    HeaderCarries(token);
    TokenRoundTrip(sv, uid, role, id, Decimal(time));
    PresentsToken(sv, token);
    ServerTimestamp(time, now, sv.expiry);
  }

  lemma PresentsToken(sv: Server, token: string)
    requires Split(BEARER + token, ' ') == ["Bearer", token]
    ensures Presented(sv, [BEARER + token]) == UADFromToken(sv, token)
  {
    assert BEARER <= BEARER + token;
  }
}
