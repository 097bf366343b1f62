/** The regular-expression literals that `has` filters compile to (services/db.go). */
module Regex {

  predicate Unescaped(c: char) {
    'A' <= c <= 'Z' || 'a' <= c <= 'z' || '0' <= c <= '9' || c == ' ' || c == ','
  }

  function Escape(s: string): string {
    if s == "" then ""
    else (if Unescaped(s[0]) then [s[0]] else ['\\', s[0]]) + Escape(s[1..])
  }

  /** The loop of `escapeAllNonAlphanumOrSpaceChars`. */
  method EscapeAllNonAlphanumOrSpaceChars(strVal: string) returns (r: string)
    ensures r == Escape(strVal)
  {
    r := "";
    for k := 0 to |strVal|
      invariant r + Escape(strVal[k..]) == Escape(strVal)
    {
      EscapeFrom(r, strVal, k);
      if Unescaped(strVal[k]) { r := r + [strVal[k]]; } else { r := r + ['\\', strVal[k]]; }
    }
  }

  lemma EscapeFrom(r: string, s: string, k: nat)
    requires k < |s|
    ensures r + Escape(s[k..])
         == r + (if Unescaped(s[k]) then [s[k]] else ['\\', s[k]]) + Escape(s[k + 1..])
  {
    assert s[k..][1..] == s[k + 1..];
  }

  function CreateRegex(s: string): (r: string)
    ensures |r| >= 3 && r[0] == '/' && r[|r| - 1] == 'i'
  {
    "/" + Escape(s) + "/i"
  }

  /** Reads a pattern up to its first unescaped `/`: the literal text and what follows the slash. */
  function ReadLiteral(pattern: string): (r: (string, string)) {
    if pattern == "" then ("", "")
    else if pattern[0] == '/' then ("", pattern[1..])
    else if pattern[0] == '\\' && |pattern| >= 2 then
      var (text, rest) := ReadLiteral(pattern[2..]);
      ([pattern[1]] + text, rest)
    else
      var (text, rest) := ReadLiteral(pattern[1..]);
      ([pattern[0]] + text, rest)
  }

  lemma ReadPlain(c: char, tail: string)
    requires Unescaped(c)
    ensures ReadLiteral([c] + tail) == ([c] + ReadLiteral(tail).0, ReadLiteral(tail).1)
  {
    assert ([c] + tail)[1..] == tail;
  }

  lemma ReadEscape(c: char, tail: string)
    ensures ReadLiteral(['\\', c] + tail) == ([c] + ReadLiteral(tail).0, ReadLiteral(tail).1)
  {
    assert (['\\', c] + tail)[2..] == tail;
  }

  lemma ReadClosing(rest: string)
    ensures ReadLiteral("/" + rest) == ("", rest)
  {
    assert ("/" + rest)[1..] == rest;
  }

  lemma FirstApart(a: string, b: string, c: string, d: string)
    ensures (a + b) + c + d == a + (b + c + d)
  {
  }

  lemma {:induction false} ReadEscaped(s: string, rest: string)
    ensures ReadLiteral(Escape(s) + "/" + rest) == (s, rest)
  {
    if s == "" {
      ReadClosing(rest);
      assert Escape(s) + "/" + rest == "/" + rest;
    } else {
      ReadEscaped(s[1..], rest);
      var tail := Escape(s[1..]) + "/" + rest;
      if Unescaped(s[0]) { ReadPlain(s[0], tail); } else { ReadEscape(s[0], tail); }
      FirstApart(if Unescaped(s[0]) then [s[0]] else ['\\', s[0]], Escape(s[1..]), "/", rest);
      assert [s[0]] + s[1..] == s;
    }
  }

  /**
   * For every text, the literal opens with `/`, its first unescaped `/` is the closing one, what
   * stands between reads back as exactly that text, and the only flag is `i`.
   */
  lemma RegexMeansItsText(s: string)
    ensures CreateRegex(s)[0] == '/' && ReadLiteral(CreateRegex(s)[1..]) == (s, "i")
  {
    ReadEscaped(s, "i");
    assert CreateRegex(s)[1..] == Escape(s) + "/" + "i";
  }

  /** Different texts never share a literal. */
  lemma CreateRegexInjective(s: string, t: string)
    requires CreateRegex(s) == CreateRegex(t)
    ensures s == t
  {
    RegexMeansItsText(s);
    RegexMeansItsText(t);
  }
}
