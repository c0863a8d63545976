/**
 Points and polygons as Well-known Text (src/shared/geo.ts; section 7 of OGC 06-103r4).

 A number is a token: printing and reading it are left to JavaScript, and a token holds no white space, comma or
 parenthesis.
 */
module Wkt {
  import opened Wrappers
  import opened Text

  /** Longitude, then latitude. */
  type Position = (string, string)
  type Ring = seq<Position>

  predicate IsToken(s: string) {
    s != "" && forall i :: 0 <= i < |s| ==> !IsSpace(s[i]) && s[i] != ',' && s[i] != '(' && s[i] != ')'
  }

  predicate IsPosition(p: Position) {
    IsToken(p.0) && IsToken(p.1)
  }

  predicate IsRing(r: Ring) {
    forall i :: 0 <= i < |r| ==> IsPosition(r[i])
  }

  // ---- points ----

  function PrintPoint(p: Position): string {
    "POINT(" + p.0 + " " + p.1 + ")"
  }

  /** What `/^POINT\(([^ ]+) ([^)]+)\)$/` captures. */
  function ParsePoint(s: string): Option<Position> {
    if |s| >= 7 && s[..6] == "POINT(" && s[|s| - 1] == ')' then
      var body := s[6..|s| - 1];
      if ' ' in body && UpTo(body, ' ') != "" && After(body, ' ') != "" && ')' !in After(body, ' ')
      then Some((UpTo(body, ' '), After(body, ' '))) else None
    else None
  }

  lemma PointRoundTrip(p: Position)
    requires IsPosition(p)
    ensures ParsePoint(PrintPoint(p)) == Some(p)
  {
    var s := PrintPoint(p);
    assert s[..6] == "POINT(" && s[6..|s| - 1] == p.0 + [' '] + p.1;
    UpToOf(p.0, ' ', p.1);
  }

  // ---- polygons ----

  function PrintPosition(p: Position): string {
    p.0 + " " + p.1
  }

  /** The positions joined by `, `. */
  function PrintRing(r: Ring): (s: string) {
    if r == [] then ""
    else if |r| == 1 then PrintPosition(r[0])
    else PrintPosition(r[0]) + ", " + PrintRing(r[1..])
  }

  /** Only the first ring is written. */
  function PrintPolygon(rings: seq<Ring>): string
    requires rings != []
  {
    "POLYGON((" + PrintRing(rings[0]) + "))"
  }

  /** The first two parts of a pair; a missing one reads as not a number. */
  function ParsePosition(pair: string): Position {
    var t := Trim(pair);
    (UpTo(t, ' '), if ' ' in t then UpTo(After(t, ' '), ' ') else "NaN")
  }

  function ParsePositions(pairs: seq<string>): (r: Ring)
    ensures |r| == |pairs|
  {
    seq(|pairs|, i requires 0 <= i < |pairs| => ParsePosition(pairs[i]))
  }

  predicate IsLineBreak(c: char) {
    var k := c as int; k == 10 || k == 13 || k == 0x2028 || k == 0x2029
  }

  /** What `/^POLYGON\(\((.+)\)\)$/` captures, split into pairs. */
  function ParsePolygon(s: string): Option<seq<Ring>> {
    if |s| >= 12 && s[..9] == "POLYGON((" && s[|s| - 2..] == "))"
       && (forall i :: 9 <= i < |s| - 2 ==> !IsLineBreak(s[i]))
    then Some([ParsePositions(Split(s[9..|s| - 2], ','))])
    else None
  }

  lemma {:induction false} TrimToken(s: string)
    requires s != "" && !IsSpace(s[0]) && !IsSpace(s[|s| - 1])
    ensures Trim(s) == s && Trim(" " + s) == s
  {
    assert (" " + s)[1..] == s;
  }

  lemma PositionText(p: Position)
    requires IsPosition(p)
    ensures var s := PrintPosition(p);
            && s == p.0 + [' '] + p.1 && ',' !in s && ' ' !in p.0 && ' ' !in p.1
            && !IsSpace(s[0]) && !IsSpace(s[|s| - 1])
  {
    var s := PrintPosition(p);
    assert s[0] == p.0[0] && s[|s| - 1] == p.1[|p.1| - 1];
    assert IsSpace(' ');
  }

  lemma PositionRoundTrip(p: Position)
    requires IsPosition(p)
    ensures ParsePosition(PrintPosition(p)) == p && ParsePosition(" " + PrintPosition(p)) == p
    ensures ',' !in PrintPosition(p)
  {
    PositionText(p);
    hide IsPosition, PrintPosition, IsSpace, Trim, UpTo;
    TrimToken(PrintPosition(p));
    UpToOf(p.0, ' ', p.1);
    UpToWhole(p.1, ' ');
  }

  lemma ParseOneMore(pair: string, rest: seq<string>)
    ensures ParsePositions([pair] + rest) == [ParsePosition(pair)] + ParsePositions(rest)
  {
  }

  lemma Regroup(lead: string, first: string, rest: string)
    ensures lead + (first + ", " + rest) == (lead + first) + [','] + (" " + rest)
  {
  }

  lemma {:induction false} RingRoundTrip(r: Ring, lead: string)
    requires r != [] && IsRing(r) && (lead == "" || lead == " ")
    ensures ParsePositions(Split(lead + PrintRing(r), ',')) == r
  {
    hide PrintPosition, ParsePosition, IsPosition, Split, ParsePositions;
    var first := lead + PrintPosition(r[0]);
    PositionRoundTrip(r[0]);
    assert "" + PrintPosition(r[0]) == PrintPosition(r[0]);
    if |r| == 1 {
      SplitWhole(first, ',');
      ParseOneMore(first, []);
      assert [first] + [] == [first] && ParsePositions([]) == [];
      assert lead + PrintRing(r) == first;
    } else {
      var rest := " " + PrintRing(r[1..]);
      Regroup(lead, PrintPosition(r[0]), PrintRing(r[1..]));
      SplitAt(first, ',', rest);
      RingRoundTrip(r[1..], " ");
      ParseOneMore(first, Split(rest, ','));
    }
  }

  lemma SplitWhole(s: string, c: char)
    requires c !in s
    ensures Split(s, c) == [s]
  {
  }

  lemma {:induction false} RingText(r: Ring)
    requires r != [] && IsRing(r)
    ensures PrintRing(r) != "" && forall i :: 0 <= i < |PrintRing(r)| ==> !IsLineBreak(PrintRing(r)[i])
  {
    if |r| > 1 { RingText(r[1..]); }
  }

  /** What is between the parentheses is what is read. */
  lemma ParsePrinted(body: string)
    ensures ParsePolygon("POLYGON((" + body + "))") ==
              if body != "" && forall i :: 0 <= i < |body| ==> !IsLineBreak(body[i])
              then Some([ParsePositions(Split(body, ','))]) else None
  {
    hide Split, ParsePositions;
    var s := "POLYGON((" + body + "))";
    assert s[..9] == "POLYGON((" && s[9..|s| - 2] == body && s[|s| - 2..] == "))";
    assert forall i :: 9 <= i < |s| - 2 ==> s[i] == body[i - 9];
    assert forall i :: 0 <= i < |body| ==> body[i] == s[i + 9];
  }

  /** A polygon reads back as itself exactly when it is one ring with at least one position. */
  lemma PolygonRoundTrip(rings: seq<Ring>)
    requires rings != [] && forall i :: 0 <= i < |rings| ==> IsRing(rings[i])
    ensures ParsePolygon(PrintPolygon(rings)) == Some(rings) <==> |rings| == 1 && rings[0] != []
  {
    var body := PrintRing(rings[0]);
    ParsePrinted(body);
    if rings[0] != [] {
      RingText(rings[0]);
      RingRoundTrip(rings[0], "");
      hide PrintRing, Split, ParsePositions, ParsePolygon, IsRing;
      assert "" + body == body;
      assert |rings| == 1 ==> rings == [rings[0]];
    }
  }

  // ---- a perimeter ----

  /** The ring `setPerimeter` builds: the vertices, then the first again. */
  function ClosedRing(points: seq<Position>): (r: Ring)
    requires points != []
    ensures |r| == |points| + 1 && r[0] == r[|points|] && r[..|points|] == points
  {
    points + [points[0]]
  }

  /** A perimeter reads back as a closed ring (section 3.1.6 of RFC 7946), one position longer than it was given. */
  lemma PerimeterReadsBack(points: seq<Position>)
    requires points != [] && IsRing(points)
    ensures ParsePolygon(PrintPolygon([ClosedRing(points)])) == Some([ClosedRing(points)])
  {
    PolygonRoundTrip([ClosedRing(points)]);
  }

  /** Longitude first, positions separated by a comma and a blank: what the database is given. */
  lemma WrittenAsStandard(x: string, y: string, p: Position, q: Position)
    ensures PrintPoint((x, y)) == "POINT(" + x + " " + y + ")"
    ensures PrintRing([p]) == p.0 + " " + p.1
    ensures PrintRing([p, q]) == (p.0 + " " + p.1) + ", " + (q.0 + " " + q.1)
    ensures PrintPolygon([[p, q]]) == "POLYGON((" + PrintRing([p, q]) + "))"
  {
    hide PrintPolygon;
    assert [p, q][1..] == [q];
    PolygonText([[p, q]]);
  }

  lemma PolygonText(rings: seq<Ring>)
    requires rings != []
    ensures PrintPolygon(rings) == "POLYGON((" + PrintRing(rings[0]) + "))"
  {
  }

  /** What the database gives back, with no blank after the comma, is read with the longitude first. */
  lemma ReadAsStandard(p: Position, q: Position)
    requires IsPosition(p) && IsPosition(q)
    ensures ParsePolygon("POLYGON((" + (PrintPosition(p) + [','] + PrintPosition(q)) + "))") == Some([[p, q]])
  {
    var s, t := PrintPosition(p), PrintPosition(q);
    var body := s + [','] + t;
    PositionRoundTrip(p);
    PositionRoundTrip(q);
    NoBreakBetween(p, q);
    hide IsPosition, ParsePosition, PrintPosition, Split, IsLineBreak, ParsePolygon, ParsePositions;
    ParsePrinted(body);
    PairOf(s, t);
    assert body != "";
  }

  lemma PairOf(s: string, t: string)
    requires ',' !in s && ',' !in t
    ensures ParsePositions(Split(s + [','] + t, ',')) == [ParsePosition(s), ParsePosition(t)]
  {
    hide ParsePosition, Split;
    SplitAt(s, ',', t);
    SplitWhole(t, ',');
    assert [s] + [t] == [s, t];
  }

  lemma NoBreakBetween(p: Position, q: Position)
    requires IsPosition(p) && IsPosition(q)
    ensures var body := PrintPosition(p) + [','] + PrintPosition(q);
            forall i :: 0 <= i < |body| ==> !IsLineBreak(body[i])
  {
    RingText([p]);
    RingText([q]);
    assert !IsLineBreak(',');
    hide IsPosition, PrintPosition, IsLineBreak;
  }
}
