/**
 * A comma-separated list of declarations, `name: kind, name: kind`, as Dgraph reads it: the parameters of a
 * query and the arguments of a block.
 */
module Declarations {
  import opened Graph
  import opened Text

  /** One declaration `name: type`. */
  datatype Decl = Decl(name: string, kind: string)

  function ReadDecl(part: string): Option<Decl> {
    var halves := Split(part, ':');
    if |halves| == 2 && halves[0] != "" && halves[1] != "" && halves[1][0] == ' '
    then Some(Decl(halves[0], halves[1][1..]))
    else None
  }

  /** Every comma must be followed by a space and another declaration. */
  function ReadMore(parts: seq<string>): Option<seq<Decl>> {
    if parts == [] then Some([])
    else if parts[0] == "" || parts[0][0] != ' ' then None
    else
      match (ReadDecl(parts[0][1..]), ReadMore(parts[1..]))
      case (Some(d), Some(ds)) => Some([d] + ds)
      case _ => None
  }

  /** How Dgraph reads the list between `query q(` and `)`. */
  function ReadParams(text: string): Option<seq<Decl>> {
    if text == "" then Some([])
    else
      var parts := Split(text, ',');
      match (ReadDecl(parts[0]), ReadMore(parts[1..]))
      case (Some(d), Some(ds)) => Some([d] + ds)
      case _ => None
  }

  predicate PlainName(s: string) { s != "" && ',' !in s && ':' !in s }

  function Show(d: Decl): string { d.name + ": " + d.kind }

  function ShowAll(ds: seq<Decl>): (ts: seq<string>)
    ensures |ts| == |ds|
    ensures forall i :: 0 <= i < |ds| ==> ts[i] == Show(ds[i])
  {
    seq(|ds|, i requires 0 <= i < |ds| => Show(ds[i]))
  }

  lemma ReadShown(d: Decl)
    requires PlainName(d.name) && PlainName(d.kind)
    ensures ReadDecl(Show(d)) == Some(d) && ',' !in Show(d)
  {
    var right := " " + d.kind;
    assert Show(d) == d.name + [':'] + right;
    SplitAt(d.name, ':', right);
    SplitNone(right, ':');
    assert right[1..] == d.kind;
  }

  function Spaced(ts: seq<string>): (ss: seq<string>)
    ensures |ss| == |ts|
    ensures forall i :: 0 <= i < |ts| ==> ss[i] == " " + ts[i]
  {
    seq(|ts|, i requires 0 <= i < |ts| => " " + ts[i])
  }

  lemma {:induction false} JoinSpaced(ts: seq<string>)
    requires ts != []
    ensures Join(ts, ", ") == Join([ts[0]] + Spaced(ts[1..]), ",")
  {
    if |ts| > 1 {
      JoinSpaced(ts[1..]);
      var inner := [ts[1]] + Spaced(ts[2..]);
      var outer := [ts[0]] + Spaced(ts[1..]);
      assert ts[1..][1..] == ts[2..];
      assert outer[1..] == [" " + ts[1]] + Spaced(ts[2..]);
      JoinFirstPrefixed(ts[1], Spaced(ts[2..]));
      assert ts[0] + "," + (" " + Join(inner, ",")) == ts[0] + ", " + Join(inner, ",");
    } else {
      assert [ts[0]] + Spaced(ts[1..]) == ts;
    }
  }

  lemma JoinFirstPrefixed(first: string, rest: seq<string>)
    ensures Join([" " + first] + rest, ",") == " " + Join([first] + rest, ",")
  {
    assert ([" " + first] + rest)[1..] == rest && ([first] + rest)[1..] == rest;
    if rest != [] {
      assert (" " + first) + "," + Join(rest, ",") == " " + (first + "," + Join(rest, ","));
    }
  }

  lemma {:induction false} ReadSpaced(ds: seq<Decl>)
    requires forall d :: d in ds ==> PlainName(d.name) && PlainName(d.kind)
    ensures ReadMore(Spaced(ShowAll(ds))) == Some(ds)
  {
    if ds != [] {
      ReadShown(ds[0]);
      ReadSpaced(ds[1..]);
      ReadOneMore(Show(ds[0]), Spaced(ShowAll(ds[1..])));
      SpacedCons(ds[0], ds[1..]);
      assert [ds[0]] + ds[1..] == ds;
    }
  }

  lemma SpacedCons(d: Decl, ds: seq<Decl>)
    ensures Spaced(ShowAll([d] + ds)) == [" " + Show(d)] + Spaced(ShowAll(ds))
  {
  }

  lemma ReadOneMore(part: string, parts: seq<string>)
    requires ReadDecl(part).Some? && ReadMore(parts).Some?
    ensures ReadMore([" " + part] + parts) == Some([ReadDecl(part).value] + ReadMore(parts).value)
  {
    assert (" " + part)[1..] == part;
    assert ([" " + part] + parts)[1..] == parts;
  }

  lemma RegroupFive(a: string, b: string, c: string, d: string, e: string)
    ensures a + b + (c + d + e) == a + b + c + d + e
  {
  }

  /** Joining two lists one after the other. */
  lemma {:induction false} JoinAppend(a: seq<string>, b: seq<string>, sep: string)
    requires a != [] && b != []
    ensures Join(a + b, sep) == Join(a, sep) + sep + Join(b, sep)
  {
    if |a| == 1 {
      assert (a + b)[1..] == b;
    } else {
      JoinAppend(a[1..], b, sep);
      assert (a + b)[1..] == a[1..] + b;
      RegroupFive(a[0], sep, Join(a[1..], sep), sep, Join(b, sep));
    }
  }

  /** Nothing but an empty list joins to nothing. */
  lemma {:induction false} JoinEmpty(ds: seq<string>, sep: string)
    requires forall i :: 0 <= i < |ds| ==> ds[i] != ""
    ensures Join(ds, sep) == "" <==> ds == []
  {
    if |ds| > 1 { assert |Join(ds, sep)| >= |ds[0]|; }
  }

  /** A joined list of declarations reads back as exactly those declarations. */
  lemma ReadRendered(ds: seq<Decl>)
    requires forall d :: d in ds ==> PlainName(d.name) && PlainName(d.kind)
    ensures ReadParams(Join(ShowAll(ds), ", ")) == Some(ds)
  {
    if ds != [] {
      var ts := ShowAll(ds);
      var pieces := [ts[0]] + Spaced(ts[1..]);
      JoinSpaced(ts);
      forall p | p in pieces ensures ',' !in p {
        forall i | 0 <= i < |ds| ensures ',' !in Show(ds[i]) { ReadShown(ds[i]); }
      }
      SplitOfJoin(pieces, ',');
      ReadShown(ds[0]);
      assert ts[1..] == ShowAll(ds[1..]);
      ReadSpaced(ds[1..]);
      assert pieces[1..] == Spaced(ts[1..]);
      assert [ds[0]] + ds[1..] == ds;
      JoinEmpty(ts, ", ");
    }
  }
}
