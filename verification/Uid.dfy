/** Uids: the 64-bit canonical form of services/db.go and the test for a real uid. */
module Uid {
  import opened Text

  const MAX_UINT64 := 0xFFFF_FFFF_FFFF_FFFF

  predicate IsLowerHex(c: char) { '0' <= c <= '9' || 'a' <= c <= 'f' }

  predicate IsHex(c: char) { IsLowerHex(c) || 'A' <= c <= 'F' }

  function DigitValue(c: char): (d: nat)
    requires IsHex(c)
    ensures d < 16
  {
    if '0' <= c <= '9' then c as int - '0' as int
    else if 'a' <= c <= 'f' then c as int - 'a' as int + 10
    else c as int - 'A' as int + 10
  }

  function DigitChar(d: nat): (c: char)
    requires d < 16
    ensures IsLowerHex(c) && DigitValue(c) == d
  {
    if d < 10 then (d + '0' as int) as char else (d - 10 + 'a' as int) as char
  }

  predicate AllHex(s: string) { forall i :: 0 <= i < |s| ==> IsHex(s[i]) }

  /** The number a string of hex digits denotes. */
  function HexValue(s: string): nat
    requires AllHex(s)
  {
    if s == "" then 0 else 16 * HexValue(s[..|s| - 1]) + DigitValue(s[|s| - 1])
  }

  /**
   * The loop of `strconv.ParseUint(s, 16, 64)`, its error dropped, from accumulator `n`. A bad
   * character yields 0; an overflow yields the largest value at once, whatever follows.
   */
  function ParseLoop(s: string, n: nat): (v: nat)
    requires n <= MAX_UINT64
    ensures v <= MAX_UINT64
  {
    if s == "" then n
    else if !IsHex(s[0]) then 0
    else if n >= 0x1000_0000_0000_0000 then MAX_UINT64
    else ParseLoop(s[1..], 16 * n + DigitValue(s[0]))
  }

  function ParseHex64(s: string): (v: nat)
    ensures v <= MAX_UINT64
  {
    ParseLoop(s, 0)
  }

  /** `%x`. */
  function FormatHex(n: nat): (s: string)
    ensures |s| >= 1
    ensures forall i :: 0 <= i < |s| ==> IsLowerHex(s[i])
    ensures s[0] == '0' <==> n == 0
    ensures |s| > 1 ==> n >= 16
    ensures AllHex(s) && HexValue(s) == n
  {
    if n < 16 then
      var s := [DigitChar(n)];
      assert s[..0] == "";
      s
    else
      var front := FormatHex(n / 16);
      var s := front + [DigitChar(n % 16)];
      assert s[..|s| - 1] == front;
      s
  }

  function HexBody(uid: string): string {
    if "0x" <= uid then uid[2..] else uid
  }

  function SanitiseUID(uid: string): string {
    "0x" + FormatHex(ParseHex64(HexBody(uid)))
  }

  /** Lower-case hex behind `0x`, no leading zero, at most 64 bits. */
  predicate Canonical(s: string) {
    && |s| >= 3 && s[..2] == "0x"
    && (forall i :: 2 <= i < |s| ==> IsLowerHex(s[i]))
    && (s[2] == '0' ==> |s| == 3)
    && HexValue(s[2..]) <= MAX_UINT64
  }

  /** Reading digits left to right from `n` agrees with positional value, saturating. */
  lemma {:induction false} ParseLoopValue(done: string, s: string)
    requires AllHex(done + s) && AllHex(done)
    requires HexValue(done) <= MAX_UINT64
    ensures ParseLoop(s, HexValue(done)) == if HexValue(done + s) <= MAX_UINT64 then HexValue(done + s) else MAX_UINT64
    decreases |s|
  {
    if s == "" {
      assert done + s == done;
    } else {
      var next := done + [s[0]];
      assert next + s[1..] == done + s;
      assert next[..|next| - 1] == done;
      assert IsHex((done + s)[|done|]);
      if HexValue(done) >= 0x1000_0000_0000_0000 {
        HexValueGrows(done, s);
        assert HexValue(done) * 16 > MAX_UINT64;
      } else {
        ParseLoopValue(next, s[1..]);
      }
    }
  }

  /** Appending digits never makes the number smaller than shifting once. */
  lemma {:induction false} HexValueGrows(a: string, b: string)
    requires AllHex(a + b) && AllHex(a)
    ensures HexValue(a + b) >= HexValue(a)
    ensures b != "" ==> HexValue(a + b) >= 16 * HexValue(a)
    decreases |b|
  {
    if b == "" {
      assert a + b == a;
    } else {
      var front := b[..|b| - 1];
      assert (a + b)[..|a + b| - 1] == a + front;
      forall i | 0 <= i < |a + front| ensures IsHex((a + front)[i]) {
        assert (a + front)[i] == (a + b)[i];
      }
      HexValueGrows(a, front);
    }
  }

  lemma SameQuotientAndDigit(x: nat, d: nat, y: nat, e: nat)
    requires d < 16 && e < 16 && 16 * x + d == 16 * y + e
    ensures x == y && d == e
  {
  }

  lemma SameDigit(c: char, d: char)
    requires IsLowerHex(c) && IsLowerHex(d) && DigitValue(c) == DigitValue(d)
    ensures c == d
  {
  }

  predicate AllLowerHex(s: string) { forall i :: 0 <= i < |s| ==> IsLowerHex(s[i]) }

  lemma AddDigit(s: string, c: char)
    requires AllLowerHex(s) && IsLowerHex(c)
    ensures AllHex(s + [c]) && AllHex(s) && HexValue(s + [c]) == 16 * HexValue(s) + DigitValue(c)
  {
    assert (s + [c])[..|s + [c]| - 1] == s;
  }

  /** Equal values have equal last digits and equal values before them. */
  lemma SplitLastDigit(fa: string, da: char, fb: string, db: char)
    requires AllLowerHex(fa) && AllLowerHex(fb) && IsLowerHex(da) && IsLowerHex(db)
    requires HexValue(fa + [da]) == HexValue(fb + [db])
    ensures AllHex(fa) && AllHex(fb) && HexValue(fa) == HexValue(fb) && da == db
  {
    AddDigit(fa, da);
    AddDigit(fb, db);
    SameQuotientAndDigit(HexValue(fa), DigitValue(da), HexValue(fb), DigitValue(db));
    SameDigit(da, db);
  }

  /** Neither digit string has a leading zero. */
  predicate NoLeadingZero(s: string) { s != "" && AllLowerHex(s) && (s[0] == '0' ==> |s| == 1) }

  lemma FrontOf(s: string)
    requires NoLeadingZero(s)
    ensures var f := s[..|s| - 1];
      && AllLowerHex(f) && s == f + [s[|s| - 1]] && IsLowerHex(s[|s| - 1])
      && (f != "" ==> NoLeadingZero(f) && HexValue(f) >= 1)
  {
    var f := s[..|s| - 1];
    if f != "" {
      assert f[0] == s[0];
      NoLeadingZeroPositive(f);
    }
  }

  /** Two digit strings with no leading zero and the same value are the same string. */
  lemma {:induction false} CanonicalUnique(a: string, b: string)
    requires NoLeadingZero(a) && NoLeadingZero(b) && HexValue(a) == HexValue(b)
    ensures a == b
    decreases |a| + |b|
  {
    FrontOf(a);
    FrontOf(b);
    var fa, fb := a[..|a| - 1], b[..|b| - 1];
    SplitLastDigit(fa, a[|a| - 1], fb, b[|b| - 1]);
    if fa != "" && fb != "" {
      CanonicalUnique(fa, fb);
    } else {
      assert HexValue("") == 0;
    }
  }

  lemma {:induction false} NoLeadingZeroPositive(a: string)
    requires |a| >= 1 && AllHex(a) && a[0] != '0'
    ensures HexValue(a) >= 1
  {
    assert [a[0]] + a[1..] == a;
    assert [a[0]][..0] == "";
    HexValueGrows([a[0]], a[1..]);
  }

  /** Every result is canonical, whatever the input. */
  lemma SanitiseIsCanonical(uid: string)
    ensures Canonical(SanitiseUID(uid))
  {
    var h := FormatHex(ParseHex64(HexBody(uid)));
    assert ("0x" + h)[2..] == h;
    if h[0] == '0' && |h| > 1 { assert false; }
  }

  /** Exactly the canonical strings are left unchanged. */
  lemma SanitiseFixesExactlyCanonical(uid: string)
    ensures SanitiseUID(uid) == uid <==> Canonical(uid)
  {
    if SanitiseUID(uid) == uid {
      SanitiseIsCanonical(uid);
    } else if Canonical(uid) {
      var body := uid[2..];
      assert uid == "0x" + body;
      forall i | 0 <= i < |body| ensures IsLowerHex(body[i]) { assert body[i] == uid[i + 2]; }
      assert "" + body == body;
      ParseLoopValue("", body);
      CanonicalUnique(FormatHex(ParseHex64(body)), body);
    }
  }

  lemma SanitiseIdempotent(uid: string)
    ensures SanitiseUID(SanitiseUID(uid)) == SanitiseUID(uid)
  {
    SanitiseIsCanonical(uid);
    SanitiseFixesExactlyCanonical(SanitiseUID(uid));
  }

  lemma WithoutPrefix(digits: string)
    ensures ("0x" + digits)[2..] == digits
  {
  }

  /** A hex body keeps its value when it fits 64 bits, and saturates when it does not. */
  lemma SanitiseKeepsValue(uid: string)
    requires AllHex(HexBody(uid))
    ensures HexValue(SanitiseUID(uid)[2..])
         == if HexValue(HexBody(uid)) <= MAX_UINT64 then HexValue(HexBody(uid)) else MAX_UINT64
  {
    var body := HexBody(uid);
    assert "" + body == body;
    ParseLoopValue("", body);
    WithoutPrefix(FormatHex(ParseHex64(body)));
  }

  /** Overflow is decided before a later bad character is seen: 17 digits and garbage still saturate. */
  lemma OverflowBeatsGarbage(digits: string, garbage: string)
    requires AllHex(digits) && HexValue(digits) > MAX_UINT64
    ensures ParseHex64(digits + garbage) == MAX_UINT64
  {
    assert "" + digits == digits;
    OverflowPrefix("", digits, garbage);
  }

  lemma {:induction false} OverflowPrefix(done: string, digits: string, garbage: string)
    requires AllHex(done + digits) && AllHex(done) && HexValue(done) <= MAX_UINT64
    requires HexValue(done + digits) > MAX_UINT64
    ensures ParseLoop(digits + garbage, HexValue(done)) == MAX_UINT64
    decreases |digits|
  {
    assert digits == "" ==> done + digits == done;
    if digits != "" {
      assert IsHex((done + digits)[|done|]);
      ParseStep(digits, garbage, HexValue(done));
      if HexValue(done) < 0x1000_0000_0000_0000 {
        OneDigitMore(done, digits);
        OverflowPrefix(done + [digits[0]], digits[1..], garbage);
      }
    }
  }

  lemma ParseStep(digits: string, garbage: string, n: nat)
    requires digits != "" && IsHex(digits[0]) && n <= MAX_UINT64
    ensures ParseLoop(digits + garbage, n)
         == if n >= 0x1000_0000_0000_0000 then MAX_UINT64
            else ParseLoop(digits[1..] + garbage, 16 * n + DigitValue(digits[0]))
  {
    assert (digits + garbage)[1..] == digits[1..] + garbage;
  }

  lemma OneDigitMore(done: string, digits: string)
    requires digits != "" && AllHex(done) && IsHex(digits[0])
    ensures (done + [digits[0]]) + digits[1..] == done + digits
    ensures AllHex(done + [digits[0]])
    ensures HexValue(done + [digits[0]]) == 16 * HexValue(done) + DigitValue(digits[0])
  {
    assert (done + [digits[0]])[..|done|] == done;
  }

  function SanitiseAll(uids: seq<string>): seq<string> {
    seq(|uids|, i requires 0 <= i < |uids| => SanitiseUID(uids[i]))
  }

  function DropZero(uids: seq<string>): seq<string> {
    if uids == [] then []
    else
      var last := uids[|uids| - 1];
      DropZero(uids[..|uids| - 1]) + if last == "0x0" then [] else [last]
  }

  method SanitiseListOfUids(untrusted: seq<string>) returns (sanitised: seq<string>)
    ensures sanitised == DropZero(SanitiseAll(untrusted))
  {
    sanitised := [];
    ghost var all := SanitiseAll(untrusted);
    for k := 0 to |untrusted|
      invariant sanitised == DropZero(all[..k])
    {
      assert all[..k + 1][..k] == all[..k];
      var uid := SanitiseUID(untrusted[k]);
      if uid == "0x0" { continue; }
      sanitised := sanitised + [uid];
    }
    assert all[..|untrusted|] == all;
  }

  /** The kept list is the sanitised list without its zeros: same members, same order around any cut. */
  lemma {:induction false} DropZeroExact(a: seq<string>, b: seq<string>, u: string)
    ensures DropZero(a + b) == DropZero(a) + DropZero(b)
    ensures u in DropZero(a) <==> u != "0x0" && u in a
    decreases |a| + |b|
  {
    if b != [] {
      var front := b[..|b| - 1];
      assert (a + b)[..|a + b| - 1] == a + front;
      DropZeroExact(a, front, u);
    } else {
      assert a + b == a;
      if a != [] {
        var front := a[..|a| - 1];
        assert a == front + [a[|a| - 1]];
        DropZeroExact(front, [], u);
      }
    }
  }

  /** `^0x[0-9a-f]+$` on the lower-cased string: the test for a uid that names an existing node. */
  predicate ValidateUid(uid: string) {
    var u := ToLower(uid);
    |u| >= 3 && u[..2] == "0x" && forall i :: 2 <= i < |u| ==> IsLowerHex(u[i])
  }

  lemma LowerHexStays(c: char)
    requires IsLowerHex(c) || c == 'x'
    ensures LowerChar(c) == c && !IsSpace(c)
  {
  }

  lemma CanonicalIsLower(uid: string)
    requires Canonical(uid)
    ensures ToLower(uid) == uid && !IsSpace(uid[0]) && !IsSpace(uid[|uid| - 1])
  {
    forall i | 0 <= i < |uid| ensures LowerChar(uid[i]) == uid[i] && !IsSpace(uid[i]) {
      if i < 2 { assert uid[i] == uid[..2][i]; }
      LowerHexStays(uid[i]);
    }
  }

  lemma CanonicalIsValid(uid: string)
    requires Canonical(uid)
    ensures ValidateUid(uid) && TrimSpace(uid) == uid
  {
    CanonicalIsLower(uid);
    TrimSpaceFixed(uid);
  }

  /** The same test on the text as it is written: `0x` and at least one hexadecimal digit, in either case. */
  lemma ValidExactly(uid: string)
    ensures ValidateUid(uid)
       <==> |uid| >= 3 && uid[0] == '0' && (uid[1] == 'x' || uid[1] == 'X')
            && forall i :: 2 <= i < |uid| ==> IsHex(uid[i])
  {
    var u := ToLower(uid);
    if |uid| >= 3 {
      assert u[..2] == [u[0], u[1]];
      LowersToZero(uid[0]);
      LowersToX(uid[1]);
      forall i | 2 <= i < |uid| ensures IsLowerHex(u[i]) <==> IsHex(uid[i]) { LowersToHex(uid[i]); }
    }
  }

  lemma LowersToHex(c: char)
    ensures IsLowerHex(LowerChar(c)) <==> IsHex(c)
  {
  }

  lemma LowersToZero(c: char)
    ensures LowerChar(c) == '0' <==> c == '0'
  {
  }

  lemma LowersToX(c: char)
    ensures LowerChar(c) == 'x' <==> c == 'x' || c == 'X'
  {
  }
}
