/**
 * Filling a query template: `QueryWithOptions` replaces one marker after the other with
 * `strings.ReplaceAll`. A template is a list of pieces, each a marker or literal text.
 */
module QueryText {

  /** `strings.ReplaceAll` with a non-empty pattern: leftmost, non-overlapping, one pass. */
  function ReplaceAll(s: string, m: string, v: string): string
    requires m != ""
  {
    if |s| < |m| then s
    else if m <= s then v + ReplaceAll(s[|m|..], m, v)
    else [s[0]] + ReplaceAll(s[1..], m, v)
  }

  predicate OccursAt(m: string, s: string, i: int) {
    0 <= i && i + |m| <= |s| && forall k :: 0 <= k < |m| ==> s[i + k] == m[k]
  }

  /** `m` occurs nowhere in `s`. */
  predicate Absent(m: string, s: string) { forall i :: 0 <= i < |s| ==> !OccursAt(m, s, i) }

  predicate MarkerChar(c: char) { c == '_' || 'A' <= c <= 'Z' }

  /** `__NAME__`. */
  predicate IsMarker(m: string) {
    && |m| > 4 && m[0] == m[1] == m[|m| - 1] == m[|m| - 2] == '_'
    && forall i :: 2 <= i < |m| - 2 ==> 'A' <= m[i] <= 'Z'
  }

  lemma MarkerIsMarkerChars(m: string)
    requires IsMarker(m)
    ensures forall i :: 0 <= i < |m| ==> MarkerChar(m[i])
  {
    forall i | 0 <= i < |m| ensures MarkerChar(m[i]) {
      assert i < 2 || i >= |m| - 2 || 'A' <= m[i] <= 'Z';
    }
  }

  /** Two different markers never contain each other. */
  lemma MarkersDisjoint(m: string, n: string)
    requires IsMarker(m) && IsMarker(n) && m != n
    ensures Absent(m, n)
  {
    forall i | 0 <= i < |n| ensures !OccursAt(m, n, i) {
      if i > 0 && i + |m| <= |n| {
        assert n[i] != m[0] || n[i + 1] != m[1];
      } else if i == 0 && |m| < |n| {
        assert n[i + (|m| - 2)] != m[|m| - 2];
      } else if i == 0 && |m| == |n| {
        var k :| 0 <= k < |m| && m[k] != n[k];
        assert n[i + k] != m[k];
      }
    }
  }

  /** An end of a text that cannot lie inside a marker. */
  predicate ClosedRight(s: string) { s == "" || !MarkerChar(s[|s| - 1]) }

  predicate ClosedLeft(s: string) { s == "" || !MarkerChar(s[0]) }

  /** Text that neither holds the marker nor can be part of it, whatever stands on either side. */
  predicate Clear(s: string, m: string) { ClosedLeft(s) && ClosedRight(s) && Absent(m, s) }

  /** Text with closed ends and no two underscores in a row: clear of every marker. */
  predicate Quiet(s: string) {
    ClosedLeft(s) && ClosedRight(s) && forall i :: 0 <= i < |s| - 1 ==> s[i] != '_' || s[i + 1] != '_'
  }

  lemma QuietIsClear(s: string, m: string)
    requires Quiet(s) && IsMarker(m)
    ensures Clear(s, m)
  {
    forall i | 0 <= i < |s| ensures !OccursAt(m, s, i) {
      if i + |m| <= |s| { assert s[i + 0] != m[0] || s[i + 1] != m[1]; }
    }
  }

  lemma QuietJoin(a: string, b: string)
    requires Quiet(a) && Quiet(b)
    ensures Quiet(a + b)
  {
    var s := a + b;
    forall i | 0 <= i < |s| - 1 ensures s[i] != '_' || s[i + 1] != '_' {
      if i < |a| - 1 {
        assert s[i] == a[i] && s[i + 1] == a[i + 1];
      } else if i >= |a| {
        assert s[i] == b[i - |a|] && s[i + 1] == b[i - |a| + 1];
      }
    }
  }

  // ------------------------------------------------------------------- one replacement

  lemma OccursShift(m: string, s: string, i: nat)
    requires s != ""
    ensures OccursAt(m, s[1..], i) <==> OccursAt(m, s, i + 1)
  {
    if OccursAt(m, s, i + 1) {
      forall k | 0 <= k < |m| ensures s[1..][i + k] == m[k] { assert s[i + 1 + k] == m[k]; }
    }
    if OccursAt(m, s[1..], i) {
      forall k | 0 <= k < |m| ensures s[i + 1 + k] == m[k] { assert s[1..][i + k] == m[k]; }
    }
  }

  lemma PrefixOccurs(m: string, s: string)
    requires m != ""
    ensures m <= s <==> OccursAt(m, s, 0)
  {
    if OccursAt(m, s, 0) {
      forall k | 0 <= k < |m| ensures s[..|m|][k] == m[k] { assert s[0 + k] == m[k]; }
    }
  }

  /** No occurrence starts in the first part of the text. */
  predicate NoneStarts(m: string, a: string, rest: string) {
    forall i :: 0 <= i < |a| ==> !OccursAt(m, a + rest, i)
  }

  /** Text in which no occurrence starts is passed over. */
  lemma {:induction false} PassOver(a: string, rest: string, m: string, v: string)
    requires m != "" && NoneStarts(m, a, rest)
    ensures ReplaceAll(a + rest, m, v) == a + ReplaceAll(rest, m, v)
  {
    var s := a + rest;
    if a == "" {
      assert s == rest;
    } else {
      PrefixOccurs(m, s);
      assert s[1..] == a[1..] + rest;
      forall i | 0 <= i < |a[1..]| ensures !OccursAt(m, a[1..] + rest, i) { OccursShift(m, s, i); }
      PassOver(a[1..], rest, m, v);
      assert [a[0]] + (a[1..] + ReplaceAll(rest, m, v)) == a + ReplaceAll(rest, m, v);
    }
  }

  lemma ReplaceAbsent(s: string, m: string, v: string)
    requires m != "" && Absent(m, s)
    ensures ReplaceAll(s, m, v) == s
  {
    assert s + "" == s;
    PassOver(s, "", m, v);
  }

  lemma NoneInClear(a: string, rest: string, m: string)
    requires IsMarker(m) && Clear(a, m)
    ensures NoneStarts(m, a, rest)
  {
    MarkerIsMarkerChars(m);
    var s := a + rest;
    forall i | 0 <= i < |a| ensures !OccursAt(m, s, i) {
      if i + |m| <= |a| {
        var k :| 0 <= k < |m| && a[i + k] != m[k] by { assert !OccursAt(m, a, i); }
        assert s[i + k] != m[k];
      } else if i + |m| <= |s| {
        assert s[i + (|a| - 1 - i)] == a[|a| - 1] != m[|a| - 1 - i];
      }
    }
  }

  /** What may follow a marker: closed text or another marker. */
  predicate Follows(s: string) { s == "" || !MarkerChar(s[0]) || (|s| >= 2 && s[0] == s[1] == '_') }

  lemma NoneInMarker(a: string, rest: string, m: string)
    requires IsMarker(m) && IsMarker(a) && a != m && Follows(rest)
    ensures NoneStarts(m, a, rest)
  {
    var s := a + rest;
    forall i | 0 <= i < |a| ensures !OccursAt(m, s, i) {
      if i + |m| <= |s| {
        if i == 0 {
          NotAtStart(a, rest, m);
        } else if i < |a| - 2 {
          assert s[i + 0] != m[0] || s[i + 1] != m[1];
        } else if i == |a| - 2 {
          assert s[i + 2] == rest[0];
          assert s[i + 2] != m[2];
        } else {
          assert s[i + 1] == rest[0] && s[i + 2] == rest[1];
          assert s[i + 1] != m[1] || s[i + 2] != m[2];
        }
      }
    }
  }

  lemma NotAtStart(a: string, rest: string, m: string)
    requires IsMarker(m) && IsMarker(a) && a != m
    ensures !OccursAt(m, a + rest, 0)
  {
    var s := a + rest;
    if |m| <= |a| {
      MarkersDisjoint(m, a);
      var k :| 0 <= k < |m| && a[0 + k] != m[k] by { assert !OccursAt(m, a, 0); }
      assert s[0 + k] != m[k];
    } else if |m| <= |s| {
      var k := |a| - 2;
      assert s[0 + k] == a[k] && 'A' <= m[k] <= 'Z';
    }
  }

  // ------------------------------------------------------------------------- templates

  /** The pieces, one after the other. */
  function Cat(pieces: seq<string>): string {
    if pieces == [] then "" else pieces[0] + Cat(pieces[1..])
  }

  lemma {:induction false} CatAppend(a: seq<string>, b: seq<string>)
    ensures Cat(a + b) == Cat(a) + Cat(b)
  {
    if a == [] {
      assert a + b == b;
    } else {
      CatAppend(a[1..], b);
      assert (a + b)[1..] == a[1..] + b;
      assert a[0] + (Cat(a[1..]) + Cat(b)) == a[0] + Cat(a[1..]) + Cat(b);
    }
  }

  function Swap(pieces: seq<string>, m: string, v: string): (r: seq<string>)
    ensures |r| == |pieces|
    ensures forall i :: 0 <= i < |pieces| ==> r[i] == if pieces[i] == m then v else pieces[i]
  {
    seq(|pieces|, i requires 0 <= i < |pieces| => if pieces[i] == m then v else pieces[i])
  }

  /** Every piece is a marker or clear of this one. */
  predicate MarkersAndTexts(pieces: seq<string>, m: string) {
    forall i :: 0 <= i < |pieces| ==> IsMarker(pieces[i]) || Clear(pieces[i], m)
  }

  lemma {:induction false} PiecesFollow(pieces: seq<string>, m: string)
    requires MarkersAndTexts(pieces, m)
    ensures Follows(Cat(pieces))
  {
    if pieces != [] {
      PiecesFollow(pieces[1..], m);
      if pieces[0] == "" { assert Cat(pieces) == Cat(pieces[1..]); } else { assert Cat(pieces)[0] == pieces[0][0]; }
    }
  }

  /** Replacing a marker replaces the pieces that are that marker, and touches nothing else. */
  lemma {:induction false} ReplaceIsSwap(pieces: seq<string>, m: string, v: string)
    requires IsMarker(m) && MarkersAndTexts(pieces, m)
    ensures ReplaceAll(Cat(pieces), m, v) == Cat(Swap(pieces, m, v))
  {
    if pieces != [] {
      var first, rest := pieces[0], Cat(pieces[1..]);
      ReplaceIsSwap(pieces[1..], m, v);
      assert Swap(pieces, m, v)[1..] == Swap(pieces[1..], m, v);
      if first == m {
        assert (m + rest)[|m|..] == rest;
      } else {
        PiecesFollow(pieces[1..], m);
        if IsMarker(first) { NoneInMarker(first, rest, m); } else { NoneInClear(first, rest, m); }
        PassOver(first, rest, m, v);
      }
    }
  }

  /** The calls `ReplaceAll(query, marker, fragment)`, in order. */
  type Call = (string, string)

  function Chain(text: string, calls: seq<Call>): string
    requires forall k :: 0 <= k < |calls| ==> calls[k].0 != ""
    decreases |calls|
  {
    if calls == [] then text else Chain(ReplaceAll(text, calls[0].0, calls[0].1), calls[1..])
  }

  /** What a piece becomes if all markers are replaced at once. */
  function Filling(piece: string, calls: seq<Call>): string {
    if calls == [] then piece else if calls[0].0 == piece then calls[0].1 else Filling(piece, calls[1..])
  }

  function FilledIn(pieces: seq<string>, calls: seq<Call>): (r: seq<string>)
    ensures |r| == |pieces|
    ensures forall i :: 0 <= i < |pieces| ==> r[i] == Filling(pieces[i], calls)
  {
    seq(|pieces|, i requires 0 <= i < |pieces| => Filling(pieces[i], calls))
  }

  predicate Markers(calls: seq<Call>) { forall k :: 0 <= k < |calls| ==> IsMarker(calls[k].0) }

  /** No marker of these calls occurs in the text. */
  predicate ClearOfAll(s: string, calls: seq<Call>) { forall k :: 0 <= k < |calls| ==> Clear(s, calls[k].0) }

  /** Every fragment is clear of the markers that are replaced after it. */
  predicate FragmentsClear(calls: seq<Call>) {
    forall j, k :: 0 <= j < k < |calls| ==> Clear(calls[j].1, calls[k].0)
  }

  predicate Template(pieces: seq<string>, calls: seq<Call>) {
    forall i :: 0 <= i < |pieces| ==> IsMarker(pieces[i]) || ClearOfAll(pieces[i], calls)
  }

  lemma {:induction false} FillingIsStable(piece: string, calls: seq<Call>)
    requires Markers(calls) && ClearOfAll(piece, calls)
    ensures Filling(piece, calls) == piece
  {
    if calls != [] {
      assert Clear(piece, calls[0].0);
      if calls[0].0 == piece { assert OccursAt(piece, piece, 0); }
      FillingIsStable(piece, calls[1..]);
    }
  }

  /** Filling one marker first and the others then is filling all at once. */
  lemma FillingSplits(piece: string, calls: seq<Call>)
    requires calls != [] && Markers(calls) && FragmentsClear(calls)
    ensures Filling(if piece == calls[0].0 then calls[0].1 else piece, calls[1..]) == Filling(piece, calls)
  {
    if piece == calls[0].0 {
      forall k | 0 <= k < |calls[1..]|
        ensures Clear(calls[0].1, calls[1..][k].0)
      {
        assert calls[1..][k] == calls[k + 1];
      }
      FillingIsStable(calls[0].1, calls[1..]);
    }
  }

  lemma StillTemplate(pieces: seq<string>, calls: seq<Call>)
    requires calls != [] && Template(pieces, calls) && FragmentsClear(calls)
    ensures Template(Swap(pieces, calls[0].0, calls[0].1), calls[1..]) && FragmentsClear(calls[1..])
  {
    var next := Swap(pieces, calls[0].0, calls[0].1);
    forall i | 0 <= i < |next| ensures IsMarker(next[i]) || ClearOfAll(next[i], calls[1..]) {
      if pieces[i] == calls[0].0 || !IsMarker(pieces[i]) {
        forall k | 0 <= k < |calls[1..]|
          ensures Clear(next[i], calls[1..][k].0)
        {
          assert calls[1..][k] == calls[k + 1];
        }
      }
    }
  }

  /**
   * The chained calls fill the template as one simultaneous substitution would, in whatever order the
   * markers are replaced, if no fragment holds a marker that is replaced after it. Markers may touch.
   */
  lemma {:induction false} ChainIsSimultaneous(pieces: seq<string>, calls: seq<Call>)
    requires Markers(calls) && Template(pieces, calls) && FragmentsClear(calls)
    ensures Chain(Cat(pieces), calls) == Cat(FilledIn(pieces, calls))
    decreases |calls|
  {
    if calls == [] {
      assert FilledIn(pieces, calls) == pieces;
    } else {
      var m, v := calls[0].0, calls[0].1;
      ReplaceIsSwap(pieces, m, v);
      StillTemplate(pieces, calls);
      ChainIsSimultaneous(Swap(pieces, m, v), calls[1..]);
      forall i | 0 <= i < |pieces| ensures Filling(Swap(pieces, m, v)[i], calls[1..]) == Filling(pieces[i], calls) {
        FillingSplits(pieces[i], calls);
      }
      assert FilledIn(Swap(pieces, m, v), calls[1..]) == FilledIn(pieces, calls);
    }
  }

  lemma {:induction false} FillingIs(piece: string, calls: seq<Call>, v: string)
    requires (piece, v) in calls && forall c :: c in calls && c.0 == piece ==> c.1 == v
    ensures Filling(piece, calls) == v
  {
    if calls[0].0 == piece { assert calls[0] in calls; } else { FillingIs(piece, calls[1..], v); }
  }

  // ---------------------------------------------------------- a fragment that holds markers

  /** At a closed seam both sides are replaced on their own. */
  lemma {:induction false} ReplaceJoin(x: string, y: string, m: string, v: string)
    requires IsMarker(m) && (ClosedRight(x) || ClosedLeft(y))
    ensures ReplaceAll(x + y, m, v) == ReplaceAll(x, m, v) + ReplaceAll(y, m, v)
    decreases |x|
  {
    var s := x + y;
    if 0 < |x| < |m| <= |s| { NotAcross(x, y, m); }
    if x == "" {
      assert s == y;
    } else if m <= s {
      assert m <= x && s[|m|..] == x[|m|..] + y;
      ReplaceJoin(x[|m|..], y, m, v);
      TextRegroup(v, ReplaceAll(x[|m|..], m, v), ReplaceAll(y, m, v));
    } else if |s| >= |m| {
      assert s[1..] == x[1..] + y;
      ReplaceJoin(x[1..], y, m, v);
      StepOver(x, m, v, s);
      TextRegroup([x[0]], ReplaceAll(x[1..], m, v), ReplaceAll(y, m, v));
    }
  }

  lemma TextRegroup(a: string, b: string, c: string)
    ensures a + (b + c) == (a + b) + c
  {
  }

  lemma NotAcross(x: string, y: string, m: string)
    requires IsMarker(m) && (ClosedRight(x) || ClosedLeft(y)) && 0 < |x| < |m| <= |x + y|
    ensures !(m <= x + y)
  {
    MarkerIsMarkerChars(m);
    var i := |x| - 1;
    assert (x + y)[i] != m[i] || (x + y)[i + 1] != m[i + 1];
  }

  lemma StepOver(x: string, m: string, v: string, s: string)
    requires m != "" && x != "" && x <= s && !(m <= s)
    ensures ReplaceAll(x, m, v) == [x[0]] + ReplaceAll(x[1..], m, v)
  {
    assert m <= x ==> m <= s;
    assert |x| < |m| ==> [x[0]] + x[1..] == x;
  }

  function Count(s: string, c: char): nat { multiset(s)[c] }

  lemma CountJoin(a: string, b: string, c: char)
    ensures Count(a + b, c) == Count(a, c) + Count(b, c)
  {
  }

  lemma OccursHereOrLater(m: string, s: string)
    requires m != "" && s != "" && !Absent(m, s)
    ensures |m| <= |s| && (m <= s || !Absent(m, s[1..]))
  {
    var i :| 0 <= i < |s| && OccursAt(m, s, i);
    if i == 0 {
      PrefixOccurs(m, s);
    } else {
      OccursShift(m, s, i - 1);
    }
  }

  /** Replacing adds the fragment's characters and takes away the marker's. */
  lemma {:induction false} CountReplaced(s: string, m: string, v: string, c: char)
    requires m != "" && c !in m
    ensures Count(ReplaceAll(s, m, v), c) >= Count(s, c)
    ensures !Absent(m, s) && c in v ==> Count(ReplaceAll(s, m, v), c) > Count(s, c)
    decreases |s|
  {
    if !Absent(m, s) { OccursHereOrLater(m, s); }
    if |s| >= |m| {
      if m <= s {
        assert s == m + s[|m|..];
        CountReplaced(s[|m|..], m, v, c);
        CountJoin(m, s[|m|..], c);
        CountJoin(v, ReplaceAll(s[|m|..], m, v), c);
      } else {
        assert s == [s[0]] + s[1..];
        CountReplaced(s[1..], m, v, c);
        CountJoin([s[0]], s[1..], c);
        CountJoin([s[0]], ReplaceAll(s[1..], m, v), c);
      }
    }
  }

  lemma {:induction false} CutShortens(s: string, m: string)
    requires m != ""
    ensures |ReplaceAll(s, m, "")| <= |s|
    ensures !Absent(m, s) ==> |ReplaceAll(s, m, "")| < |s|
    decreases |s|
  {
    if !Absent(m, s) { OccursHereOrLater(m, s); }
    if |s| >= |m| { CutShortens(if m <= s then s[|m|..] else s[1..], m); }
  }

  /** A fragment that is empty or brings a character of its own. */
  predicate Tells(v: string, c: char) { v == "" || c in v }

  /** Two markers are replaced, one after the other: nothing changes exactly if neither occurs. */
  lemma TwiceUnchanged(s: string, m: string, v: string, c: char, n: string, w: string, d: char)
    requires m != "" && n != "" && Tells(v, c) && Tells(w, d)
    requires c !in m && c !in n && d !in m && d !in n
    ensures ReplaceAll(ReplaceAll(s, m, v), n, w) == s <==> Absent(m, s) && Absent(n, s)
  {
    var once := ReplaceAll(s, m, v);
    var twice := ReplaceAll(once, n, w);
    if Absent(m, s) { ReplaceAbsent(s, m, v); }
    if Absent(n, once) { ReplaceAbsent(once, n, w); }
    CountReplaced(s, m, v, c);
    CountReplaced(s, m, v, d);
    CountReplaced(once, n, w, c);
    CountReplaced(once, n, w, d);
    CutShortens(s, m);
    CutShortens(once, n);
  }

  /** Quiet text, or another marker. */
  predicate Other(p: string, m: string) { Quiet(p) || (IsMarker(p) && p != m) }

  predicate Others(pieces: seq<string>, m: string) { forall i :: 0 <= i < |pieces| ==> Other(pieces[i], m) }

  lemma OthersJoin(a: seq<string>, b: seq<string>, m: string)
    requires Others(a, m) && Others(b, m)
    ensures Others(a + b, m)
  {
  }

  lemma OtherIsPiece(p: string, m: string)
    requires IsMarker(m) && Other(p, m)
    ensures p != m && (IsMarker(p) || Clear(p, m))
  {
    if Quiet(p) { QuietIsClear(p, m); }
  }

  /** The one piece that is the marker is replaced. */
  lemma ReplaceAt(a: seq<string>, m: string, b: seq<string>, v: string)
    requires IsMarker(m) && Others(a, m) && Others(b, m)
    ensures ReplaceAll(Cat(a + [m] + b), m, v) == Cat(a + [v] + b)
  {
    var pieces := a + [m] + b;
    forall i | 0 <= i < |pieces|
      ensures IsMarker(pieces[i]) || Clear(pieces[i], m)
      ensures i != |a| ==> pieces[i] != m
    {
      if i < |a| { OtherIsPiece(a[i], m); } else if i > |a| { OtherIsPiece(b[i - |a| - 1], m); }
    }
    ReplaceIsSwap(pieces, m, v);
    assert Swap(pieces, m, v) == a + [v] + b;
  }

  lemma ReplaceNowhere(c: seq<string>, m: string, v: string)
    requires IsMarker(m) && Others(c, m)
    ensures ReplaceAll(Cat(c), m, v) == Cat(c)
  {
    forall i | 0 <= i < |c| ensures c[i] != m && (IsMarker(c[i]) || Clear(c[i], m)) { OtherIsPiece(c[i], m); }
    ReplaceIsSwap(c, m, v);
    assert Swap(c, m, v) == c;
  }

  /** A fragment between closed texts is replaced on its own. */
  lemma ReplaceAround(before: string, f: string, c: seq<string>, m: string, v: string)
    requires IsMarker(m) && Others(c, m) && ClosedRight(before) && ClosedLeft(Cat(c))
    ensures ReplaceAll(before + f + Cat(c), m, v) == ReplaceAll(before, m, v) + ReplaceAll(f, m, v) + Cat(c)
  {
    ReplaceJoin(before + f, Cat(c), m, v);
    ReplaceBefore(before, f, m, v);
    ReplaceNowhere(c, m, v);
  }

  lemma ReplaceBefore(before: string, f: string, m: string, v: string)
    requires IsMarker(m) && ClosedRight(before)
    ensures ReplaceAll(before + f, m, v) == ReplaceAll(before, m, v) + ReplaceAll(f, m, v)
  {
    ReplaceJoin(before, f, m, v);
  }

  /** At a closed seam, a marker is absent from the whole exactly if it is from both sides. */
  lemma AbsentSeam(x: string, y: string, m: string)
    requires IsMarker(m) && (ClosedRight(x) || ClosedLeft(y))
    ensures Absent(m, x + y) <==> Absent(m, x) && Absent(m, y)
  {
    var s := x + y;
    forall i | 0 <= i < |x| ensures OccursAt(m, s, i) <==> OccursAt(m, x, i) { OccursLeft(x, y, m, i); }
    forall i | 0 <= i < |y| ensures OccursAt(m, s, |x| + i) <==> OccursAt(m, y, i) { OccursRight(x, y, m, i); }
    forall i | |x| <= i < |s| ensures OccursAt(m, s, i) <==> OccursAt(m, y, i - |x|) { OccursRight(x, y, m, i - |x|); }
  }

  lemma OccursLeft(x: string, y: string, m: string, i: nat)
    requires IsMarker(m) && (ClosedRight(x) || ClosedLeft(y)) && i < |x|
    ensures OccursAt(m, x + y, i) <==> OccursAt(m, x, i)
  {
    MarkerIsMarkerChars(m);
    var s := x + y;
    assert s[..|x|] == x;
    if |x| < i + |m| <= |s| {
      var k := |x| - 1 - i;
      assert s[i + k] != m[k] || s[i + (k + 1)] != m[k + 1];
    }
  }

  lemma OccursRight(x: string, y: string, m: string, i: nat)
    ensures OccursAt(m, x + y, |x| + i) <==> OccursAt(m, y, i)
  {
    var s := x + y;
    if OccursAt(m, y, i) {
      forall k | 0 <= k < |m| ensures s[|x| + i + k] == m[k] { assert s[|x| + i + k] == y[i + k]; }
    }
    if OccursAt(m, s, |x| + i) {
      forall k | 0 <= k < |m| ensures y[i + k] == m[k] { assert s[|x| + i + k] == y[i + k]; }
    }
  }
}
