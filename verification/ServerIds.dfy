/**
 * The ids of share groups (security/crypto.go): the clock and four random bytes in base64url. They pass
 * unharmed through every text that groups are put into: tokens, comma lists, the read filter and the
 * templates of the query.
 */
module ServerIds {
  import opened Graph
  import opened Base64Url
  import opened AuthzData
  import opened ReadFilter
  import opened QueryText
  import opened QuerySent
  import opened QueryTheorems

  /** The low bytes of a number's two's complement, the lowest first. */
  function LowBytes(n: int, k: nat): (b: seq<Byte>)
    ensures |b| == k
    decreases k
  {
    if k == 0 then [] else [n % 0x100] + LowBytes(n / 0x100, k - 1)
  }

  function Power256(k: nat): (p: nat)
    ensures p > 0
  {
    if k == 0 then 1 else 0x100 * Power256(k - 1)
  }

  /** The six low bytes of the clock, in milliseconds. */
  function ClockBytes(ms: int): (b: seq<Byte>)
    ensures |b| == 6
  {
    LowBytes(ms, 6)
  }

  /** `GenerateSgi`, at some time and with some random bytes. */
  function GenerateSgi(ms: int, random: seq<Byte>): string
    requires |random| == 4
  {
    Encode(ClockBytes(ms) + random)
  }

  /** Any ten bytes make a usable group id without a comma or a dot. */
  lemma TenBytes(b: seq<Byte>)
    requires |b| == 10
    ensures var s := Encode(b);
      |s| == 14 && SgiChars(s) && DotFree(s) && ',' !in s
  {
    NoDotInEncoding(b);
    var s := Encode(b);
    forall k | 0 <= k < |s| ensures InAlphabet(s[k]) && s[k] as int < 256 { assert s[k] in s; }
  }

  /** The eighth symbol is made of the sixth byte alone. */
  lemma EighthSymbol(b: seq<Byte>)
    requires |b| == 10
    ensures Encode(b)[7] == Symbol(b[5] % 64)
  {
    var tail := b[3..];
    assert Sextets(b)[7] == Sextets(tail)[3];
    assert Sextets(tail)[3] == tail[2] % 64;
  }

  /** The same low bytes: the numbers are a whole number of turns apart. */
  lemma {:induction false} LowBytesTell(n: int, m: int, k: nat) returns (turns: int)
    requires LowBytes(n, k) == LowBytes(m, k)
    ensures n - m == turns * Power256(k)
    decreases k
  {
    if k == 0 {
      turns := n - m;
    } else {
      SameFirst(n % 0x100, LowBytes(n / 0x100, k - 1), m % 0x100, LowBytes(m / 0x100, k - 1));
      turns := LowBytesTell(n / 0x100, m / 0x100, k - 1);
      OneByteMore(n, m, turns, Power256(k - 1));
    }
  }

  lemma SameFirst(x: Byte, b: seq<Byte>, y: Byte, d: seq<Byte>)
    requires [x] + b == [y] + d
    ensures x == y && b == d
  {
    assert x == ([x] + b)[0] && y == ([y] + d)[0];
    assert b == ([x] + b)[1..] && d == ([y] + d)[1..];
  }

  lemma OneByteMore(n: int, m: int, turns: int, p: nat)
    requires n % 0x100 == m % 0x100 && n / 0x100 - m / 0x100 == turns * p
    ensures n - m == turns * (0x100 * p)
  {
    assert n - m == 0x100 * (n / 0x100 - m / 0x100);
    assert 0x100 * (turns * p) == turns * (0x100 * p);
  }

  /** Ids made in different milliseconds differ, unless the six bytes have gone all the way round. */
  lemma ClocksTellIdsApart(ms: int, random: seq<Byte>, ms': int, random': seq<Byte>) returns (turns: int)
    requires |random| == 4 && |random'| == 4 && GenerateSgi(ms, random) == GenerateSgi(ms', random')
    ensures ms - ms' == turns * Power256(6) && random == random'
  {
    EncodeInjective(ClockBytes(ms) + random, ClockBytes(ms') + random');
    var b, b' := ClockBytes(ms), ClockBytes(ms');
    assert b == (b + random)[..6] && b' == (b' + random')[..6];
    assert random == (b + random)[6..] && random' == (b' + random')[6..];
    turns := LowBytesTell(ms, ms', 6);
  }

  // ------------------------------------------------------------------------ the markers

  /** From November 2004 to May 2109. */
  predicate InClockRange(ms: int) { Power256(5) <= ms < 4 * Power256(5) }

  lemma {:induction false} HighByte(n: int, k: nat)
    requires Power256(k) <= n < 4 * Power256(k)
    ensures 1 <= LowBytes(n, k + 1)[k] <= 3
    decreases k
  {
    if k > 0 { HighByte(n / 0x100, k - 1); }
  }

  /** In that time the eighth symbol is one of three letters, and no marker has any of them. */
  lemma ClockLetter(ms: int, random: seq<Byte>)
    requires |random| == 4 && InClockRange(ms)
    ensures 'B' <= GenerateSgi(ms, random)[7] <= 'D'
  {
    EighthSymbol(ClockBytes(ms) + random);
    HighByte(ms, 5);
  }

  lemma MarkersHaveOtherLetters(c: char)
    requires 'B' <= c <= 'D'
    ensures c !in PAGEARGS && c !in QVARS && |PAGEARGS| == 12 && |QVARS| == 9
  {
  }

  lemma MarkerCovers(m: string, s: string, i: nat)
    requires |s| == 14 && 8 <= |m|
    ensures OccursAt(m, s, i) ==> s[7] in m
  {
    if OccursAt(m, s, i) { assert s[i + (7 - i)] == m[7 - i]; }
  }

  /** A marker of eight characters or more cannot pass the eighth of fourteen by. */
  lemma LongMarkerIsAbsent(m: string, s: string)
    requires |s| == 14 && 8 <= |m| && s[7] !in m
    ensures Absent(m, s)
  {
    forall i | 0 <= i < |s| ensures !OccursAt(m, s, i) { MarkerCovers(m, s, i); }
  }

  ghost predicate ServerSgi(s: string) { exists ms, random :: MadeAt(s, ms, random) }

  predicate MadeAt(s: string, ms: int, random: seq<Byte>) {
    InClockRange(ms) && |random| == 4 && s == GenerateSgi(ms, random)
  }

  /** A server-made id is in the share-group charset, without a comma or a dot, and holds neither marker. */
  lemma ServerSgiIsHarmless(s: string)
    requires ServerSgi(s)
    ensures SgiChars(s) && DotFree(s) && ',' !in s && s != "" && Innocent(s)
  {
    var ms, random :| MadeAt(s, ms, random);
    TenBytes(ClockBytes(ms) + random);
    ClockLetter(ms, random);
    MarkersHaveOtherLetters(s[7]);
    LongMarkerIsAbsent(PAGEARGS, s);
    LongMarkerIsAbsent(QVARS, s);
  }
}
