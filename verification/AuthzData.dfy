/**
 * Signed texts (security/auth.go) and the AuthzData token of a node (models/node.go): a signed cache
 * of its owner, share group and permission bits.
 */
module AuthzData {
  import opened Graph
  import opened Text
  import opened Base64Url

  /** HMAC-SHA256 of a message under a key. */
  type Mac = (string, seq<Byte>) -> seq<Byte>

  function MessageAndMAC(mac: Mac, message: string, key: string): string
    requires ByteString(message)
  {
    var m64 := Encode(BytesOf(message));
    m64 + "." + Encode(mac(m64, Decode(key)))
  }

  /** The two halves of a signed text, if it has two and the second authenticates the first. */
  function Verified(mac: Mac, signed: string, key: string): Option<string> {
    var parts := Split(signed, '.');
    if |parts| == 2 && Decode(parts[1]) == mac(parts[0], Decode(key)) then Some(parts[0]) else None
  }

  /** `DecodeAndVerifyAD`; the empty string means failure. */
  function DecodeAndVerifyAD(mac: Mac, signed: string, key: string): string {
    match Verified(mac, signed, key)
    case None => ""
    case Some(m64) => StringOf(Decode(m64))
  }

  predicate DotFree(s: string) { ByteString(s) && '.' !in s }

  lemma NoDotInEncoding(b: seq<Byte>)
    ensures '.' !in Encode(b) && ',' !in Encode(b)
  {
  }

  /** A signed text splits into exactly its two halves, and the first half is what was signed. */
  lemma VerifyOwn(mac: Mac, message: string, key: string)
    requires ByteString(message)
    ensures Verified(mac, MessageAndMAC(mac, message, key), key) == Some(Encode(BytesOf(message)))
    ensures DecodeAndVerifyAD(mac, MessageAndMAC(mac, message, key), key) == message
  {
    var m64 := Encode(BytesOf(message));
    var tag := mac(m64, Decode(key));
    NoDotInEncoding(BytesOf(message));
    NoDotInEncoding(tag);
    SplitAt(m64, '.', Encode(tag));
    SplitNone(Encode(tag), '.');
    DecodeEncode(tag);
    DecodeEncode(BytesOf(message));
    StringOfBytesOf(message);
  }

  // ------------------------------------------------------------------- packing

  function Mark(bit: Option<bool>, letter: char): string { if IsSet(bit) then [letter] else "" }

  function PermsText(b: Bits): string {
    Mark(b.r, 'r') + Mark(b.w, 'w') + Mark(b.o, 'o') + Mark(b.i, 'i') + Mark(b.d, 'd') + Mark(b.s, 's')
  }

  function OrEmpty(s: Option<string>): string { if s.Some? then s.value else "" }

  /** What a token says about a node. */
  datatype Authz = Authz(uid: string, own: Option<string>, sgi: Option<string>, bits: Bits)

  function AuthzOf(n: Node): Authz { Authz(n.uid, n.own, n.sgi, n.bits) }

  function AdText(a: Authz): string {
    a.uid + "." + OrEmpty(a.own) + "." + OrEmpty(a.sgi) + "." + PermsText(a.bits)
  }

  predicate Packable(a: Authz) { DotFree(a.uid) && DotFree(OrEmpty(a.own)) && DotFree(OrEmpty(a.sgi)) }

  /** `ConvertNullBoolFieldsToFalse` on all six bits. */
  function NoNulls(b: Bits): Bits {
    Bits(Some(IsSet(b.r)), Some(IsSet(b.w)), Some(IsSet(b.o)), Some(IsSet(b.i)), Some(IsSet(b.d)), Some(IsSet(b.s)))
  }

  function Flag(set_: bool): Option<bool> { if set_ then Some(true) else None }

  /** `GraphNodeFromUnpackedAD`: four parts; a bit whose letter is missing stays null. */
  function NodeFromText(ad: string): Option<Authz> {
    var parts := Split(ad, '.');
    if ad == "" || |parts| != 4 then None
    else
      var p := parts[3];
      Some(Authz(parts[0], Some(parts[1]), Some(parts[2]),
                 Bits(Flag('r' in p), Flag('w' in p), Flag('o' in p), Flag('i' in p), Flag('d' in p), Flag('s' in p))))
  }

  /** `GraphUserFromUnpackedAD`: three parts. */
  function UserFromText(ad: string): Option<(string, string)> {
    var parts := Split(ad, '.');
    if ad == "" || |parts| != 3 then None else Some((parts[0], parts[1]))
  }

  function UserText(uid: string, role: string): string { uid + "." + role + "." }

  /** The fields a token gives back: absent owner and share group become empty, bits lose their nulls. */
  predicate SameAuthz(a: Authz, b: Authz) {
    && a.uid == b.uid && OrEmpty(a.own) == OrEmpty(b.own)
    && OrEmpty(a.sgi) == OrEmpty(b.sgi) && NoNulls(a.bits) == NoNulls(b.bits)
  }

  lemma PermsTextMarks(b: Bits)
    ensures 'r' in PermsText(b) <==> IsSet(b.r)
    ensures 'w' in PermsText(b) <==> IsSet(b.w)
    ensures 'o' in PermsText(b) <==> IsSet(b.o)
    ensures 'i' in PermsText(b) <==> IsSet(b.i)
    ensures 'd' in PermsText(b) <==> IsSet(b.d)
    ensures 's' in PermsText(b) <==> IsSet(b.s)
    ensures DotFree(PermsText(b))
  {
    MarkedInText(b, 'r');
    MarkedInText(b, 'w');
    MarkedInText(b, 'o');
    MarkedInText(b, 'i');
    MarkedInText(b, 'd');
    MarkedInText(b, 's');
    PermsTextIsPlain(b);
  }

  lemma PermsTextIsPlain(b: Bits)
    ensures DotFree(PermsText(b))
  {
    forall c | c in PermsText(b) ensures Marked(b, c) { MarkedInText(b, c); }
    MarksArePlain(PermsText(b));
  }

  /** The letter has its bit set. */
  predicate Marked(b: Bits, c: char) {
    match c
    case 'r' => IsSet(b.r)
    case 'w' => IsSet(b.w)
    case 'o' => IsSet(b.o)
    case 'i' => IsSet(b.i)
    case 'd' => IsSet(b.d)
    case 's' => IsSet(b.s)
    case _ => false
  }

  lemma MarkedInText(b: Bits, c: char)
    ensures c in PermsText(b) <==> Marked(b, c)
  {
    InSix(c, Mark(b.r, 'r'), Mark(b.w, 'w'), Mark(b.o, 'o'), Mark(b.i, 'i'), Mark(b.d, 'd'), Mark(b.s, 's'));
  }

  lemma MarksArePlain(p: string)
    requires forall c :: c in p ==> c == 'r' || c == 'w' || c == 'o' || c == 'i' || c == 'd' || c == 's'
    ensures DotFree(p)
  {
    forall k | 0 <= k < |p| ensures p[k] as int < 256 { assert p[k] in p; }
  }

  lemma InSix(c: char, m1: string, m2: string, m3: string, m4: string, m5: string, m6: string)
    ensures c in m1 + m2 + m3 + m4 + m5 + m6 <==> c in m1 || c in m2 || c in m3 || c in m4 || c in m5 || c in m6
  {
    assert c in m1 + m2 + m3 <==> c in m1 || c in m2 || c in m3;
    assert c in (m1 + m2 + m3) + m4 + m5 <==> c in m1 + m2 + m3 || c in m4 || c in m5;
  }

  lemma FourParts(a: string, b: string, c: string, d: string)
    ensures a + "." + b + "." + c + "." + d == a + ['.'] + (b + ['.'] + (c + ['.'] + d))
    ensures ByteString(a) && ByteString(b) && ByteString(c) && ByteString(d) ==>
      ByteString(a + "." + b + "." + c + "." + d)
  {
    assert b + "." + c + "." + d == b + ['.'] + (c + ['.'] + d);
    assert a + "." + b + "." + c + "." + d == a + "." + (b + "." + c + "." + d);
    if ByteString(a) && ByteString(b) && ByteString(c) && ByteString(d) {
      BytesJoin(c, d);
      BytesJoin(b, c + ['.'] + d);
      BytesJoin(a, b + ['.'] + (c + ['.'] + d));
    }
  }

  lemma BytesJoin(a: string, b: string)
    requires ByteString(a) && ByteString(b)
    ensures ByteString(a + ['.'] + b)
  {
  }

  lemma AdTextParts(a: Authz)
    requires Packable(a)
    ensures Split(AdText(a), '.') == [a.uid, OrEmpty(a.own), OrEmpty(a.sgi), PermsText(a.bits)]
    ensures ByteString(AdText(a)) && AdText(a) != ""
  {
    PermsTextIsPlain(a.bits);
    FourParts(a.uid, OrEmpty(a.own), OrEmpty(a.sgi), PermsText(a.bits));
    SplitFour(a.uid, OrEmpty(a.own), OrEmpty(a.sgi), PermsText(a.bits));
  }

  lemma SplitFour(a: string, b: string, c: string, d: string)
    requires '.' !in a && '.' !in b && '.' !in c && '.' !in d
    ensures Split(a + ['.'] + (b + ['.'] + (c + ['.'] + d)), '.') == [a, b, c, d]
  {
    SplitAt(a, '.', b + ['.'] + (c + ['.'] + d));
    SplitAt(b, '.', c + ['.'] + d);
    SplitAt(c, '.', d);
    SplitNone(d, '.');
  }

  /** Unpacked, the text of a node gives back all nine authz fields. */
  lemma TextRoundTrip(a: Authz)
    requires Packable(a)
    ensures NodeFromText(AdText(a)).Some? && SameAuthz(NodeFromText(AdText(a)).value, a)
  {
    AdTextParts(a);
    PermsTextMarks(a.bits);
  }

  /** Neither kind of token can stand in for the other: node texts have four parts, user texts three. */
  lemma KindsNeverConfused(a: Authz, uid: string, role: string)
    requires Packable(a) && DotFree(uid) && DotFree(role)
    ensures UserFromText(AdText(a)) == None && NodeFromText(UserText(uid, role)) == None
    ensures UserFromText(UserText(uid, role)) == Some((uid, role))
  {
    AdTextParts(a);
    var s1 := role + ['.'] + "";
    assert UserText(uid, role) == uid + ['.'] + s1;
    SplitAt(uid, '.', s1);
    SplitAt(role, '.', "");
  }

  function PackAD(mac: Mac, a: Authz, key: string): string
    requires Packable(a)
  {
    AdTextParts(a);
    MessageAndMAC(mac, AdText(a), key)
  }

  /** `GraphNodeFromAD`. */
  function NodeFromAD(mac: Mac, ad: string, key: string): Option<Authz> {
    NodeFromText(DecodeAndVerifyAD(mac, ad, key))
  }

  // ----------------------------------------------------------------- permissions

  function BitOf(b: Bits, letter: char): Option<bool> {
    match letter
    case 'r' => b.r
    case 'w' => b.w
    case 'o' => b.o
    case 'i' => b.i
    case 'd' => b.d
    case 's' => b.s
    case _ => Some(true)
  }

  /** Every permission letter in the list is set; other letters ask for nothing. */
  predicate HasAll(b: Bits, required: string) {
    forall k :: 0 <= k < |required| ==> IsSet(BitOf(b, required[k]))
  }

  /** The six permission letters. */
  predicate IsLetter(c: char) { c == 'r' || c == 'w' || c == 'o' || c == 'i' || c == 'd' || c == 's' }

  /** Each permission letter in the list stands in the text that tokens carry. */
  predicate LettersIn(required: string, text: string) {
    forall k :: 0 <= k < |required| && IsLetter(required[k]) ==> required[k] in text
  }

  lemma LetterInText(b: Bits, c: char)
    ensures IsSet(BitOf(b, c)) <==> (IsLetter(c) ==> c in PermsText(b))
  {
    MarkedInText(b, c);
  }

  /** What is required of the bits is required of the text that they are packed as, letter by letter. */
  lemma HasAllIsInText(b: Bits, required: string)
    ensures HasAll(b, required) <==> LettersIn(required, PermsText(b))
  {
    forall k | 0 <= k < |required|
      ensures IsSet(BitOf(b, required[k])) <==> (IsLetter(required[k]) ==> required[k] in PermsText(b))
    {
      LetterInText(b, required[k]);
    }
  }

  method HasRequiredPermissions(b: Bits, rp: string) returns (met: bool)
    ensures met <==> HasAll(b, rp)
    ensures met <==> LettersIn(rp, PermsText(b))
  {
    HasAllIsInText(b, rp);
    if rp == "" { return true; }
    met := true;
    var n := NoNulls(b);
    for k := 0 to |rp|
      invariant met
      invariant HasAll(b, rp[..k])
    {
      match rp[k] {
        case 'r' => met := met && n.r.value;
        case 'w' => met := met && n.w.value;
        case 'o' => met := met && n.o.value;
        case 'i' => met := met && n.i.value;
        case 'd' => met := met && n.d.value;
        case 's' => met := met && n.s.value;
        case _ =>
      }
      if !met {
        assert !IsSet(BitOf(b, rp[k]));
        break;
      }
    }
  }

  /** Turning nulls into false takes no permission away and gives none. */
  lemma NoNullsKeepsText(b: Bits)
    ensures PermsText(NoNulls(b)) == PermsText(b)
    ensures var n := NoNulls(b); n.r.Some? && n.w.Some? && n.o.Some? && n.i.Some? && n.d.Some? && n.s.Some?
  {
  }

  /** The decision on an authz record: owner, or sys, or share group allowed and every required bit set. */
  predicate Grants(a: Authz, caller: Caller, grants: set<string>, required: string) {
    || a.own == Some(caller.uid)
    || caller.role == SYS_ROLE
    || (OrEmpty(a.sgi) in grants && HasAll(a.bits, required))
  }

  lemma OneLetter(b: Bits, c: char)
    ensures HasAll(b, [c]) <==> IsSet(BitOf(b, c))
  {
    assert [c][0] == c;
  }

  /** What each letter asks for, in the node's own fields. */
  lemma GrantsSpelledOut(a: Authz, caller: Caller, grants: set<string>)
    ensures Grants(a, caller, grants, "r") <==> OwnsOrRules(a, caller) || (InGroup(a, grants) && a.bits.r == Some(true))
    ensures Grants(a, caller, grants, "w") <==> OwnsOrRules(a, caller) || (InGroup(a, grants) && a.bits.w == Some(true))
    ensures Grants(a, caller, grants, "o") <==> OwnsOrRules(a, caller) || (InGroup(a, grants) && a.bits.o == Some(true))
    ensures Grants(a, caller, grants, "i") <==> OwnsOrRules(a, caller) || (InGroup(a, grants) && a.bits.i == Some(true))
    ensures Grants(a, caller, grants, "d") <==> OwnsOrRules(a, caller) || (InGroup(a, grants) && a.bits.d == Some(true))
    ensures Grants(a, caller, grants, "s") <==> OwnsOrRules(a, caller) || (InGroup(a, grants) && a.bits.s == Some(true))
    ensures OwnsOrRules(a, caller) <==> a.own == Some(caller.uid) || caller.role == "sys"
    ensures InGroup(a, grants) <==> (if a.sgi.Some? then a.sgi.value in grants else "" in grants)
  {
    OneLetter(a.bits, 'r');
    OneLetter(a.bits, 'w');
    OneLetter(a.bits, 'o');
    OneLetter(a.bits, 'i');
    OneLetter(a.bits, 'd');
    OneLetter(a.bits, 's');
  }

  predicate OwnsOrRules(a: Authz, caller: Caller) { a.own == Some(caller.uid) || caller.role == SYS_ROLE }

  predicate InGroup(a: Authz, grants: set<string>) { OrEmpty(a.sgi) in grants }

  /**
   * `AuthzDataUnpackADString`. Checking the bits, which happens only when neither ownership nor role
   * decides, leaves none of them null.
   */
  function Unpack(mac: Mac, ad: string, caller: Caller, grants: set<string>, required: string): Option<Authz> {
    match NodeFromAD(mac, ad, caller.key)
    case None => None
    case Some(a) =>
      if a.own == Some(caller.uid) || caller.role == SYS_ROLE then Some(a)
      else if OrEmpty(a.sgi) in grants && HasAll(a.bits, required) then
        Some(if required == "" then a else a.(bits := NoNulls(a.bits)))
      else None
  }

  /**
   * Round trip and exact decision: a token packed for a caller and unpacked with the caller's key is
   * granted exactly when the caller owns the node, is sys, or has its share group and every required letter
   * stands in the permission text.
   * A node without an owner is packed as owned by the empty uid.
   */
  lemma PackUnpack(mac: Mac, a: Authz, caller: Caller, grants: set<string>, required: string)
    requires Packable(a)
    ensures NodeFromAD(mac, PackAD(mac, a, caller.key), caller.key).Some?
    ensures SameAuthz(NodeFromAD(mac, PackAD(mac, a, caller.key), caller.key).value, a)
    ensures Unpack(mac, PackAD(mac, a, caller.key), caller, grants, required).Some?
       <==> OrEmpty(a.own) == caller.uid || caller.role == SYS_ROLE
            || (OrEmpty(a.sgi) in grants && HasAll(a.bits, required))
    ensures HasAll(a.bits, required) <==> LettersIn(required, PermsText(a.bits))
  {
    HasAllIsInText(a.bits, required);
    OwnTokenReads(mac, a, caller.key);
    var t := NodeFromAD(mac, PackAD(mac, a, caller.key), caller.key).value;
    SameBitsSameTest(t.bits, a.bits, required);
    UnpackDecides(mac, PackAD(mac, a, caller.key), caller, grants, required, t);
  }

  lemma OwnTokenReads(mac: Mac, a: Authz, key: string)
    requires Packable(a)
    ensures NodeFromAD(mac, PackAD(mac, a, key), key).Some?
    ensures var t := NodeFromAD(mac, PackAD(mac, a, key), key).value; SameAuthz(t, a) && t.own.Some?
  {
    AdTextParts(a);
    VerifyOwn(mac, AdText(a), key);
    TextRoundTrip(a);
  }

  lemma UnpackDecides(mac: Mac, ad: string, caller: Caller, grants: set<string>, required: string, t: Authz)
    requires NodeFromAD(mac, ad, caller.key) == Some(t)
    ensures Unpack(mac, ad, caller, grants, required).Some? <==> Grants(t, caller, grants, required)
  {
  }

  lemma SameBitsSameTest(b: Bits, c: Bits, required: string)
    requires NoNulls(b) == NoNulls(c)
    ensures HasAll(b, required) <==> HasAll(c, required)
  {
    forall letter ensures IsSet(BitOf(b, letter)) <==> IsSet(BitOf(c, letter)) {
      assert NoNulls(b).r == NoNulls(c).r && NoNulls(b).w == NoNulls(c).w && NoNulls(b).o == NoNulls(c).o;
      assert NoNulls(b).i == NoNulls(c).i && NoNulls(b).d == NoNulls(c).d && NoNulls(b).s == NoNulls(c).s;
    }
  }

  /**
   * The decision depends only on what a token carries: a missing owner and an empty one differ for a
   * caller with an empty uid, and for nobody else.
   */
  lemma SameAuthzSameDecision(a: Authz, b: Authz, caller: Caller, grants: set<string>, required: string)
    requires SameAuthz(a, b) && (a.own == b.own || caller.uid != "")
    ensures Grants(a, caller, grants, required) <==> Grants(b, caller, grants, required)
  {
    SameBitsSameTest(a.bits, b.bits, required);
  }

  // --------------------------------------------------------------- lists of tokens

  /** Its loop, with the check of one token. */
  method UnpackEach(ads: array<string>, check: string -> Option<Authz>) returns (ok: bool, nodes: seq<Authz>)
    modifies ads
    ensures ok <==> ads.Length > 0 && forall k :: 0 <= k < ads.Length ==> check(old(ads[k])).Some?
    ensures ok ==> |nodes| == ads.Length
    ensures ok ==> forall k :: 0 <= k < ads.Length ==> check(old(ads[k])) == Some(nodes[k]) && ads[k] == nodes[k].uid
    ensures !ok && ads.Length > 0 ==> |nodes| < ads.Length && check(old(ads[|nodes|])) == None
    ensures !ok ==> forall k :: |nodes| <= k < ads.Length ==> ads[k] == old(ads[k])
  {
    nodes := [];
    if ads.Length == 0 { return false, nodes; }
    for i := 0 to ads.Length
      invariant |nodes| == i
      invariant forall k :: i <= k < ads.Length ==> ads[k] == old(ads[k])
      invariant forall k :: 0 <= k < i ==> check(old(ads[k])) == Some(nodes[k]) && ads[k] == nodes[k].uid
    {
      var tmpNode := check(ads[i]);
      if tmpNode.None? { return false, nodes; }
      ads[i] := tmpNode.value.uid;
      nodes := nodes + [tmpNode.value];
    }
    ok := true;
  }

  /**
   * `AuthzDataUnpackADStringSlicePlusNodes`: each token is overwritten by the uid it proves, up to the
   * first refusal. Only an accepted list is entirely rewritten, and an empty one is refused.
   */
  method UnpackSlice(mac: Mac, ads: array<string>, caller: Caller, grants: set<string>, required: string)
      returns (ok: bool, nodes: seq<Authz>)
    modifies ads
    ensures ok
       <==> ads.Length > 0
            && forall k :: 0 <= k < ads.Length ==> Unpack(mac, old(ads[k]), caller, grants, required).Some?
    ensures ok ==> |nodes| == ads.Length
    ensures ok ==> forall k :: 0 <= k < ads.Length ==>
      Unpack(mac, old(ads[k]), caller, grants, required) == Some(nodes[k]) && ads[k] == nodes[k].uid
    ensures !ok && ads.Length > 0 ==>
      |nodes| < ads.Length && Unpack(mac, old(ads[|nodes|]), caller, grants, required) == None
    ensures !ok ==> forall k :: |nodes| <= k < ads.Length ==> ads[k] == old(ads[k])
  {
    ok, nodes := UnpackEach(ads, ad => Unpack(mac, ad, caller, grants, required));
  }

  /** A nil dereference ends the request before anything is written. */
  datatype Outcome = Equal | Different | Panic

  /** `AuthzFieldsAreEqual` of a submitted node and an unpacked one, whose share group is never nil. */
  function AuthzFieldsAreEqual(n: Authz, t: Authz): Outcome {
    if n.uid != t.uid || n.own.None? || t.own.None? || n.own != t.own then Different
    else if n.sgi.None? || t.sgi.None? then Panic
    else if n.sgi == t.sgi && NoNulls(n.bits) == NoNulls(t.bits) then Equal
    else Different
  }

  /** `AuthzDataUnpackNodeSlice` on one entry: the submitted fields must be the token's, and the token must grant. */
  function UnpackNode(mac: Mac, n: Authz, ad: string, caller: Caller, grants: set<string>, required: string): Outcome {
    if ad == "" then Different
    else
      match NodeFromAD(mac, ad, caller.key)
      case None => Different
      case Some(t) =>
        var same := AuthzFieldsAreEqual(n, t);
        if same == Equal && !Grants(t, caller, grants, required) then Different else same
  }

  /** An accepted entry says exactly what its token says. */
  lemma UnpackedNodeMatchesToken(mac: Mac, n: Authz, ad: string, caller: Caller, grants: set<string>, required: string)
    requires UnpackNode(mac, n, ad, caller, grants, required) == Equal
    ensures NodeFromAD(mac, ad, caller.key).Some?
    ensures SameAuthz(n, NodeFromAD(mac, ad, caller.key).value) && n.own.Some? && n.sgi.Some?
    ensures Grants(n, caller, grants, required)
  {
    SameAuthzSameDecision(n, NodeFromAD(mac, ad, caller.key).value, caller, grants, required);
  }

  /** The token is for this very node and owner, and the entry names no share group. */
  predicate NamesNoGroup(mac: Mac, n: Authz, ad: string, key: string) {
    var t := NodeFromAD(mac, ad, key);
    t.Some? && n.uid == t.value.uid && n.own == t.value.own && n.sgi.None?
  }

  lemma NoNodeInEmptyText(mac: Mac, key: string)
    ensures NodeFromAD(mac, "", key) == None
  {
    SplitNone("", '.');
  }

  /**
   * Exactly which entries panic: those that repeat the uid and owner of a token of theirs and submit no
   * share group. Neither the grants nor the required permissions are looked at before that.
   */
  lemma UnpackNodePanicsExactly(mac: Mac, n: Authz, ad: string, caller: Caller, grants: set<string>, required: string)
    ensures UnpackNode(mac, n, ad, caller, grants, required) == Panic <==> NamesNoGroup(mac, n, ad, caller.key)
  {
    NoNodeInEmptyText(mac, caller.key);
  }

  /** So a caller with no permission whatever on a node panics the request with a token they were sent for it. */
  lemma PanicsBeforePermission(mac: Mac, a: Authz, caller: Caller, grants: set<string>)
    requires Packable(a) && a.own.Some? && a.own.value != caller.uid && !caller.IsAdmin() && OrEmpty(a.sgi) !in grants
    ensures UnpackNode(mac, a.(sgi := None), PackAD(mac, a, caller.key), caller, grants, "w") == Panic
    ensures Unpack(mac, PackAD(mac, a, caller.key), caller, grants, "w") == None
  {
    PackUnpack(mac, a, caller, grants, "w");
    UnpackNodePanicsExactly(mac, a.(sgi := None), PackAD(mac, a, caller.key), caller, grants, "w");
  }
}
