/** The names that a query with gaps shows: what url.ParseQuery makes of them for
    every filling that brings no ampersand, and when they depend on the filling. */
module QueryNames {
  import opened Base
  import opened Sorting
  import opened UrlTrace
  import opened Masking
  import opened Percent
  import opened Legibility
  import opened Escaping

  // ------------------------------------------------------------ known queries

  /** Around a byte that no escape contains, each side is well escaped by itself. */
  lemma {:induction false} WellBefore(a: Text, c: Byte, b: Text, due: nat)
    requires !IsHex(c) && WellFrom(a + ([c] + b), due)
    ensures WellFrom(a, due)
    decreases |a|
  {
    var x := a + ([c] + b);
    if a == [] {
      assert x[0] == c;
    } else {
      assert x[0] == a[0] && x[1..] == a[1..] + ([c] + b);
      WellBefore(a[1..], c, b, if due > 0 then due - 1 else if a[0] == '%' then 2 else 0);
    }
  }

  lemma WellAround(a: Text, c: Byte, b: Text)
    requires !IsHex(c) && c != '%'
    ensures WellEscaped(a + ([c] + b)) <==> WellEscaped(a) && WellEscaped(b)
  {
    assert ([c] + b)[0] == c && ([c] + b)[1..] == b;
    if WellEscaped(a + ([c] + b)) {
      WellBefore(a, c, b, 0);
    }
    if WellEscaped(a) {
      WellConcat(a, [c] + b, 0);
    }
  }

  lemma CutAround(x: Text, c: Byte)
    ensures
      var i := IndexOf(x, c);
      if i < |x| then x == x[..i] + ([c] + x[i + 1..]) else c !in x
  {
    var i := IndexOf(x, c);
    if i < |x| {
      SplitAt(x, i);
      ConcatAssociates(x[..i], [c], x[i + 1..]);
    }
  }

  /** A piece parses exactly when it holds no semicolon and is well escaped. */
  lemma PieceOk(piece: Text)
    ensures ParsePiece(piece).Some? <==> ';' !in piece && WellEscaped(piece)
  {
    var i := IndexOf(piece, '=');
    CutAround(piece, '=');
    UnescapeWell(piece[..i]);
    if i < |piece| {
      UnescapeWell(piece[i + 1..]);
      WellAround(piece[..i], '=', piece[i + 1..]);
    } else {
      assert piece[..i] == piece;
      UnescapeWell([]);
    }
  }

  lemma MemberAround(a: Text, c: Byte, b: Text, d: Byte)
    ensures d in a + ([c] + b) <==> d in a || d == c || d in b
  {
  }

  /** A query parses exactly when it holds no semicolon and is well escaped. */
  lemma {:induction false} QueryOk(q: Text)
    ensures ParseQuery(q).ok <==> ';' !in q && WellEscaped(q)
    decreases |q|
  {
    if q == [] {
    } else {
      var i := IndexOf(q, '&');
      CutAround(q, '&');
      PieceOk(q[..i]);
      if i < |q| {
        QueryOk(q[i + 1..]);
        WellAround(q[..i], '&', q[i + 1..]);
        MemberAround(q[..i], '&', q[i + 1..], ';');
      } else {
        assert q[..i] == q;
      }
    }
  }

  // ----------------------------------------------------- names, as Prepare shows

  /** The same names with the same multiplicities. */
  ghost predicate SameNames(p: seq<Pair>, q: seq<Pair>) {
    forall n :: |ValuesFor(p, n)| == |ValuesFor(q, n)|
  }

  /** Two raw queries of which Prepare shows the same. */
  ghost predicate SeenAlike(x: Text, y: Text) {
    var p, q := ParseQuery(x), ParseQuery(y);
    p.ok == q.ok && (p.ok ==> SameNames(p.pairs, q.pairs))
  }

  function NamesOf(ps: seq<Pair>): seq<Text> {
    if ps == [] then [] else [ps[0].name] + NamesOf(ps[1..])
  }

  lemma {:induction false} NamesDecide(p: seq<Pair>, q: seq<Pair>, n: Text)
    requires NamesOf(p) == NamesOf(q)
    ensures |ValuesFor(p, n)| == |ValuesFor(q, n)|
  {
    if p == [] || q == [] {
      assert p == [] && q == [];
    } else {
      assert NamesOf(p)[0] == p[0].name && NamesOf(q)[0] == q[0].name;
      assert NamesOf(p)[1..] == NamesOf(p[1..]) && NamesOf(q)[1..] == NamesOf(q[1..]);
      NamesDecide(p[1..], q[1..], n);
    }
  }

  /** The bytes of all names. */
  function NameBytes<V>(ps: seq<Named<V>>): nat {
    if ps == [] then 0 else |ps[0].name| + NameBytes(ps[1..])
  }

  function Units(ps: seq<Pair>): seq<Named<()>> {
    if ps == [] then [] else [Named(ps[0].name, ())] + Units(ps[1..])
  }

  lemma {:induction false} UnitsValues(ps: seq<Pair>, n: Text)
    ensures |ValuesFor(Units(ps), n)| == |ValuesFor(ps, n)| && NameBytes(Units(ps)) == NameBytes(ps)
  {
    if ps == [] {
    } else {
      assert Units(ps)[1..] == Units(ps[1..]);
      UnitsValues(ps[1..], n);
    }
  }

  lemma {:induction false} InsertBytes<V>(p: Named<V>, s: seq<Named<V>>)
    ensures NameBytes(Insert(p, s)) == |p.name| + NameBytes(s)
  {
    if s == [] || Leq(p.name, s[0].name) {
      assert ([p] + s)[1..] == s;
    } else {
      InsertBytes(p, s[1..]);
      assert ([s[0]] + Insert(p, s[1..]))[1..] == Insert(p, s[1..]);
    }
  }

  lemma {:induction false} SortBytes<V>(s: seq<Named<V>>)
    ensures NameBytes(Sort(s)) == NameBytes(s)
  {
    if s == [] {
    } else {
      SortBytes(s[1..]);
      InsertBytes(s[0], Sort(s[1..]));
    }
  }

  lemma AllUnits(a: seq<()>, b: seq<()>)
    requires |a| == |b|
    ensures a == b
  {
    forall i | 0 <= i < |a|
      ensures a[i] == b[i]
    {
      assert a[i] == () && b[i] == ();
    }
  }

  /** Equal multiplicities mean equally many bytes in names. */
  lemma SameNamesBytes(p: seq<Pair>, q: seq<Pair>)
    requires SameNames(p, q)
    ensures NameBytes(p) == NameBytes(q)
  {
    var a, b := Units(p), Units(q);
    forall n
      ensures ValuesFor(Sort(a), n) == ValuesFor(Sort(b), n)
    {
      SortMeaning(a, n);
      SortMeaning(b, n);
      UnitsValues(p, n);
      UnitsValues(q, n);
      AllUnits(ValuesFor(a, n), ValuesFor(b, n));
    }
    SortMeaning(a, []);
    SortMeaning(b, []);
    SortedDetermined(Sort(a), Sort(b));
    SortBytes(a);
    SortBytes(b);
    UnitsValues(p, []);
    UnitsValues(q, []);
  }

  // ------------------------------------------------------------ queries with gaps

  /** Every gap stands behind the equals sign of its piece. */
  predicate NamesFree(q: Masked)
    decreases |q|
  {
    var i := Stop(q, "&");
    var h := q[..i];
    GapFree(h[..Stop(h, "=")]) && (i < |q| ==> NamesFree(q[i + 1..]))
  }

  /** The gaps in names. */
  function NameGaps(q: Masked): nat
    decreases |q|
  {
    var i := Stop(q, "&");
    var h := q[..i];
    CountGaps(h[..Stop(h, "=")]) + if i < |q| then NameGaps(q[i + 1..]) else 0
  }

  function CountGaps(s: Masked): nat {
    if s == [] then 0 else (if s[0].Gap? then 1 else 0) + CountGaps(s[1..])
  }

  lemma {:induction false} GapFreeCounts(s: Masked)
    ensures GapFree(s) <==> CountGaps(s) == 0
  {
    if s == [] {
    } else {
      GapFreeCounts(s[1..]);
      assert GapFree(s) <==> s[0].Known? && GapFree(s[1..]) by {
        assert forall i :: 0 < i < |s| ==> s[i] == s[1..][i - 1];
      }
    }
  }

  lemma {:induction false} NamesFreeCounts(q: Masked)
    ensures NamesFree(q) <==> NameGaps(q) == 0
    decreases |q|
  {
    var i := Stop(q, "&");
    var h := q[..i];
    GapFreeCounts(h[..Stop(h, "=")]);
    if i >= |q| {
    } else {
      NamesFreeCounts(q[i + 1..]);
    }
  }

  /** Gaps that bring neither ampersand nor, in names, an equals sign. */
  predicate Mild(q: Masked, v: Text -> Text) {
    Properly(q, v) && Fits(q, v, "&")
  }

  /** The whole query is whole in each piece. */
  lemma {:induction false} UnbrokenSplit(a: Masked, b: Masked, due: nat)
    requires Unbroken(a + b, due) && WellFrom(Bare(a), due)
    ensures Unbroken(a, due) && Unbroken(b, 0)
    decreases |a|
  {
    if a == [] {
      assert a + b == b;
    } else {
      assert (a + b)[0] == a[0] && (a + b)[1..] == a[1..] + b;
      if a[0].Known? {
        FillHead(a, Always([]));
        UnbrokenSplit(a[1..], b, if due > 0 then due - 1 else if a[0].c == '%' then 2 else 0);
      } else {
        assert Bare(a) == [] + Bare(a[1..]) == Bare(a[1..]);
        UnbrokenSplit(a[1..], b, 0);
      }
    }
  }

  lemma AmpersandAround(q: Masked, v: Text -> Text)
    requires Fits(q, v, "&")
    ensures
      var i, x := Stop(q, "&"), Fill(q, v);
      && x[..IndexOf(x, '&')] == Fill(q[..i], v)
      && (IndexOf(x, '&') < |x| <==> i < |q|)
      && (i < |q| ==> x[IndexOf(x, '&') + 1..] == Fill(q[i + 1..], v))
  {
    FirstKnown(q, '&', v);
  }

  /** The first byte of a kind in a filled text is the first known one. */
  lemma FirstKnown(q: Masked, c: Byte, v: Text -> Text)
    requires Fits(q, v, [c])
    ensures
      var i, x := Stop(q, [c]), Fill(q, v);
      && x[..IndexOf(x, c)] == Fill(q[..i], v)
      && (IndexOf(x, c) < |x| <==> i < |q|)
      && (i < |q| ==> x[IndexOf(x, c) + 1..] == Fill(q[i + 1..], v))
  {
    var i, x := Stop(q, [c]), Fill(q, v);
    FillStop(q, [c], v);
    OneOfOne(x, c);
    if i < |q| {
      FillHead(q[i..], v);
      assert q[i..][1..] == q[i + 1..];
      var k := IndexOf(x, c);
      assert x[k..][1..] == x[k + 1..];
    }
  }

  lemma OneOfOne(x: Text, c: Byte)
    ensures IndexOf(x, c) == IndexAny(x, [c])
  {
    var i, j := IndexOf(x, c), IndexAny(x, [c]);
    assert c in [c];
    assert i < |x| ==> x[i] in [c];
    assert j < |x| ==> x[j] == c;
  }

  /** A name without gaps is cut at the same place in every filling. */
  lemma NameCut(h: Masked, v: Text -> Text)
    requires GapFree(h[..Stop(h, "=")])
    ensures
      var e, x := Stop(h, "="), Fill(h, v);
      x[..IndexOf(x, '=')] == Bare(h[..e]) && (x == [] <==> h == [])
  {
    var e := Stop(h, "=");
    FillSplit(h, e, v);
    FillGapFree(h[..e], v);
    NoEquals(h[..e]);
    if e < |h| {
      FillHead(h[e..], v);
      CutBefore(Bare(h[..e]), Fill(h[e..], v));
    } else {
      assert h[..e] == h;
      CutNowhere(Bare(h));
    }
  }

  lemma NoEquals(s: Masked)
    requires GapFree(s) && forall i :: 0 <= i < |s| ==> s[i].c !in "="
    ensures '=' !in Bare(s)
  {
    FillGapFree(s, Always([]));
    assert '=' in "=";
  }

  lemma CutNowhere(x: Text)
    requires '=' !in x
    ensures x[..IndexOf(x, '=')] == x
  {
  }

  lemma CutBefore(a: Text, b: Text)
    requires '=' !in a && b != [] && b[0] == '='
    ensures IndexOf(a + b, '=') == |a| && (a + b)[..|a|] == a
  {
    assert (a + b)[|a|] == b[0];
    assert forall j :: 0 <= j < |a| ==> (a + b)[j] == a[j] && a[j] in a;
  }

  lemma PieceName(piece: Text)
    requires ParsePiece(piece).Some?
    ensures Some(ParsePiece(piece).value.name) == Unescape(piece[..IndexOf(piece, '=')])
  {
  }

  /** The head of a query and the rest, as the parser takes them. */
  function Front(x: Text): seq<Pair> {
    if x == [] || ParsePiece(x).None? then [] else [ParsePiece(x).value]
  }

  lemma ParseStep(x: Text)
    requires ParseQuery(x).ok
    ensures
      var i := IndexOf(x, '&');
      var rest := ParseQuery(if i < |x| then x[i + 1..] else []);
      && rest.ok && ParseQuery(x).pairs == Front(x[..i]) + rest.pairs
      && (x[..i] != [] ==> ParsePiece(x[..i]).Some?)
  {
    if x != [] {
      var i := IndexOf(x, '&');
      if x[..i] == [] || ParsePiece(x[..i]).None? {
        assert Front(x[..i]) == [];
      }
    }
  }

  lemma NamesConcat(a: seq<Pair>, b: seq<Pair>)
    requires |a| <= 1
    ensures NamesOf(a + b) == NamesOf(a) + NamesOf(b)
    ensures NameBytes(a + b) == NameBytes(a) + NameBytes(b)
  {
    if a == [] {
      assert a + b == b;
    } else {
      assert (a + b)[1..] == b && a[1..] == [];
    }
  }

  lemma FrontNames(h: Masked, v: Text -> Text, w: Text -> Text)
    requires GapFree(h[..Stop(h, "=")])
    requires Fill(h, v) != [] ==> ParsePiece(Fill(h, v)).Some?
    requires Fill(h, w) != [] ==> ParsePiece(Fill(h, w)).Some?
    ensures NamesOf(Front(Fill(h, v))) == NamesOf(Front(Fill(h, w)))
  {
    NameCut(h, v);
    NameCut(h, w);
    if h == [] {
    } else {
      PieceName(Fill(h, v));
      PieceName(Fill(h, w));
      assert Front(Fill(h, v))[1..] == [] && Front(Fill(h, w))[1..] == [];
    }
  }

  lemma MildParts(q: Masked, v: Text -> Text, i: nat)
    requires Mild(q, v) && i < |q|
    ensures Mild(q[i + 1..], v)
  {
  }

  /** The pairs after the first piece of a filled query. */
  function LaterPairs(q: Masked, v: Text -> Text): seq<Pair> {
    var i := Stop(q, "&");
    if i < |q| then ParseQuery(Fill(q[i + 1..], v)).pairs else []
  }

  /** The first piece of a filled query, and the rest. */
  lemma QueryStep(q: Masked, v: Text -> Text)
    requires Mild(q, v) && ParseQuery(Fill(q, v)).ok
    ensures
      var i := Stop(q, "&");
      var h := q[..i];
      && (Fill(h, v) != [] ==> ParsePiece(Fill(h, v)).Some?)
      && (i < |q| ==> ParseQuery(Fill(q[i + 1..], v)).ok && Mild(q[i + 1..], v))
    ensures
      var front, ps := Front(Fill(q[..Stop(q, "&")], v)), ParseQuery(Fill(q, v)).pairs;
      && NamesOf(ps) == NamesOf(front) + NamesOf(LaterPairs(q, v))
      && NameBytes(ps) == NameBytes(front) + NameBytes(LaterPairs(q, v))
  {
    var i := Stop(q, "&");
    AmpersandAround(q, v);
    ParseStep(Fill(q, v));
    NamesConcat(Front(Fill(q[..i], v)), LaterPairs(q, v));
    if i < |q| {
      MildParts(q, v, i);
    }
  }

  /** With all gaps in values, every mild filling that parses has the same names. */
  lemma {:induction false} NamesSound(q: Masked, v: Text -> Text, w: Text -> Text)
    requires NamesFree(q) && Mild(q, v) && Mild(q, w)
    requires ParseQuery(Fill(q, v)).ok && ParseQuery(Fill(q, w)).ok
    ensures NamesOf(ParseQuery(Fill(q, v)).pairs) == NamesOf(ParseQuery(Fill(q, w)).pairs)
    decreases |q|
  {
    var i := Stop(q, "&");
    QueryStep(q, v);
    QueryStep(q, w);
    FrontNames(q[..i], v, w);
    if i >= |q| {
    } else {
      NamesSound(q[i + 1..], v, w);
    }
  }

  // ------------------------------------------------------- gaps in names are seen

  /** The decoded length of a text with `due` digits of an escape due. */
  function Decoded(x: Text, due: nat): nat
    decreases |x|
  {
    if x == [] then 0
    else if due > 0 then Decoded(x[1..], due - 1)
    else 1 + Decoded(x[1..], if x[0] == '%' then 2 else 0)
  }

  lemma {:induction false} UnescapeLength(x: Text)
    requires Unescape(x).Some?
    ensures |Unescape(x).value| == Decoded(x, 0)
    decreases |x|
  {
    if x == [] {
    } else if x[0] == '%' {
      var y, z := x[1..], x[2..];
      assert y[1..] == z && z[1..] == x[3..];
      assert Decoded(x, 0) == 1 + Decoded(y, 2) && Decoded(y, 2) == Decoded(z, 1) && Decoded(z, 1) == Decoded(x[3..], 0);
      UnescapeLength(x[3..]);
    } else {
      UnescapeLength(x[1..]);
    }
  }

  const X: Text := "x"

  /** Each gap of a whole text counts one byte more when it holds one. */
  lemma {:induction false} GapsCounted(s: Masked, due: nat)
    requires Unbroken(s, due) && WellFrom(Bare(s), due)
    ensures Decoded(Fill(s, Always(X)), due) == Decoded(Bare(s), due) + CountGaps(s)
    decreases |s|
  {
    if s == [] {
    } else if s[0].Known? {
      FillHead(s, Always(X));
      FillHead(s, Always([]));
      GapsCounted(s[1..], if due > 0 then due - 1 else if s[0].c == '%' then 2 else 0);
    } else {
      var rest := Fill(s[1..], Always(X));
      assert Fill(s, Always(X)) == X + rest && (X + rest)[0] == 'x' && (X + rest)[1..] == rest;
      assert Bare(s) == [] + Bare(s[1..]) == Bare(s[1..]);
      GapsCounted(s[1..], 0);
    }
  }

  lemma XIsMild(q: Masked)
    ensures Mild(q, Always(X)) && Mild(q, Always([])) && Mild(q, Always(DIGITS)) && Mild(q, Always("z"))
  {
    DigitsProper();
    assert X[1..] == [] && Proper(X) && Proper([]);
    assert '&' in "&";
  }

  /** The first name of a whole piece, with its gaps empty or holding one byte. */
  lemma FrontLonger(h: Masked)
    requires Unbroken(h, 0)
    requires Fill(h, Always(X)) != [] ==> ParsePiece(Fill(h, Always(X))).Some?
    requires Bare(h) != [] ==> ParsePiece(Bare(h)).Some?
    ensures NameBytes(Front(Fill(h, Always(X)))) == NameBytes(Front(Bare(h))) + CountGaps(h[..Stop(h, "=")])
  {
    var e := Stop(h, "=");
    var name, x, none := h[..e], Always(X), Always([]);
    FirstEquals(h, x);
    FirstEquals(h, none);
    FrontBytes(Fill(h, x));
    FrontBytes(Bare(h));
    NameWhole(h);
    GapsCounted(name, 0);
  }

  lemma FirstEquals(h: Masked, v: Text -> Text)
    requires v == Always(X) || v == Always([])
    ensures Fill(h, v)[..IndexOf(Fill(h, v), '=')] == Fill(h[..Stop(h, "=")], v)
  {
    assert Fits(h, v, "=") by { assert 'x' !in "="; }
    FirstKnown(h, '=', v);
  }

  lemma FrontBytes(x: Text)
    requires x != [] ==> ParsePiece(x).Some?
    ensures NameBytes(Front(x)) == Decoded(x[..IndexOf(x, '=')], 0)
  {
    if x == [] {
    } else {
      PieceName(x);
      UnescapeLength(x[..IndexOf(x, '=')]);
      assert Front(x)[1..] == [];
    }
  }

  /** The name of a piece that parses is whole. */
  lemma NameWhole(h: Masked)
    requires Unbroken(h, 0) && (Bare(h) != [] ==> ParsePiece(Bare(h)).Some?)
    ensures Unbroken(h[..Stop(h, "=")], 0) && WellEscaped(Bare(h[..Stop(h, "=")]))
  {
    var e := Stop(h, "=");
    FirstEquals(h, Always([]));
    if Bare(h) == [] {
      FillSplit(h, e, Always([]));
    } else {
      PieceName(Bare(h));
      UnescapeWell(Bare(h[..e]));
    }
    PrefixUnbroken(h, e);
  }

  lemma PrefixUnbroken(h: Masked, e: nat)
    requires e <= |h| && Unbroken(h, 0) && WellEscaped(Bare(h[..e]))
    ensures Unbroken(h[..e], 0)
  {
    assert h == h[..e] + h[e..];
    UnbrokenSplit(h[..e], h[e..], 0);
  }

  lemma PieceWhole(h: Masked, rest: Masked)
    requires Unbroken(h + rest, 0) && (Bare(h) != [] ==> ParsePiece(Bare(h)).Some?)
    ensures Unbroken(h, 0) && Unbroken(rest, 0)
  {
    if Bare(h) != [] {
      PieceOk(Bare(h));
    }
    UnbrokenSplit(h, rest, 0);
  }

  lemma RestWhole(q: Masked)
    requires Unbroken(q, 0)
    requires var h := q[..Stop(q, "&")]; Bare(h) != [] ==> ParsePiece(Bare(h)).Some?
    ensures Unbroken(q[..Stop(q, "&")], 0)
    ensures Stop(q, "&") < |q| ==> Unbroken(q[Stop(q, "&") + 1..], 0)
  {
    var i := Stop(q, "&");
    CutWholeAt(q, i);
    if i < |q| {
      AmpersandWhole(q, i);
    }
  }

  lemma CutWholeAt(q: Masked, i: nat)
    requires Unbroken(q, 0) && i <= |q| && (Bare(q[..i]) != [] ==> ParsePiece(Bare(q[..i])).Some?)
    ensures Unbroken(q[..i], 0) && Unbroken(q[i..], 0)
  {
    assert q == q[..i] + q[i..];
    PieceWhole(q[..i], q[i..]);
  }

  lemma AmpersandWhole(q: Masked, i: nat)
    requires i < |q| && q[i] == Known('&') && Unbroken(q[i..], 0)
    ensures Unbroken(q[i + 1..], 0)
  {
    var rest := q[i..];
    assert rest[0] == q[i] && rest[1..] == q[i + 1..];
  }

  /** One byte in every gap lengthens the names by their gaps. */
  lemma {:induction false} NamesLonger(q: Masked)
    requires Unbroken(q, 0) && ParseQuery(Bare(q)).ok && ParseQuery(Fill(q, Always(X))).ok
    ensures NameBytes(ParseQuery(Fill(q, Always(X))).pairs) == NameBytes(ParseQuery(Bare(q)).pairs) + NameGaps(q)
    decreases |q|
  {
    var i := Stop(q, "&");
    XIsMild(q);
    QueryStep(q, Always(X));
    QueryStep(q, Always([]));
    RestWhole(q);
    FrontLonger(q[..i]);
    if i >= |q| {
    } else {
      NamesLonger(q[i + 1..]);
    }
  }

  // ---------------------------------------------------------- settled and exact

  /** The shown names do not depend on mild gaps: the query never parses, or no gap
      is in a name or inside an escape. */
  predicate QuerySettled(q: Masked) {
    ParseQuery(Fill(q, Always(DIGITS))).ok ==> Unbroken(q, 0) && NamesFree(q)
  }

  /** Whether a filled query parses: no known semicolon, and well escaped. */
  lemma QueryParses(q: Masked, v: Text -> Text)
    requires Properly(q, v)
    ensures ParseQuery(Fill(q, v)).ok <==> KnownAll(q, NotSemicolon) && WellEscaped(Fill(q, v))
  {
    QueryOk(Fill(q, v));
    assert Covers(NotSemicolon);
    AllFilled(q, v, NotSemicolon);
  }

  predicate NotSemicolon(c: Byte) {
    c != ';'
  }

  lemma ParsesAlike(q: Masked, v: Text -> Text)
    requires QuerySettled(q) && Mild(q, v)
    ensures ParseQuery(Fill(q, v)).ok <==> ParseQuery(Fill(q, Always(DIGITS))).ok
  {
    XIsMild(q);
    QueryParses(q, v);
    QueryParses(q, Always(DIGITS));
    PartSound(q, v);
  }

  lemma QuerySettledSound(q: Masked, v: Text -> Text, w: Text -> Text)
    requires QuerySettled(q) && Mild(q, v) && Mild(q, w)
    ensures SeenAlike(Fill(q, v), Fill(q, w))
  {
    ParsesAlike(q, v);
    ParsesAlike(q, w);
    if ParseQuery(Fill(q, v)).ok {
      NamesSound(q, v, w);
      forall n
        ensures |ValuesFor(ParseQuery(Fill(q, v)).pairs, n)| == |ValuesFor(ParseQuery(Fill(q, w)).pairs, n)|
      {
        NamesDecide(ParseQuery(Fill(q, v)).pairs, ParseQuery(Fill(q, w)).pairs, n);
      }
    }
  }

  /** A query that is not settled has two mild fillings that show differently. */
  lemma QuerySettledExact(q: Masked) returns (x: Text, y: Text)
    requires !QuerySettled(q)
    ensures x in {"", "x", "z", "41"} && y in {"", "x", "z", "41"}
    ensures !SeenAlike(Fill(q, Always(x)), Fill(q, Always(y)))
  {
    XIsMild(q);
    QueryParses(q, Always(DIGITS));
    if !Unbroken(q, 0) {
      x, y := DIGITS, "z";
      BrokenTells(q, 0);
      QueryParses(q, Always("z"));
    } else {
      x, y := X, [];
      QueryParses(q, Always(X));
      QueryParses(q, Always([]));
      PartSound(q, Always(X));
      PartSound(q, Always([]));
      NamesLonger(q);
      NamesFreeCounts(q);
      if SameNames(ParseQuery(Fill(q, Always(X))).pairs, ParseQuery(Bare(q)).pairs) {
        SameNamesBytes(ParseQuery(Fill(q, Always(X))).pairs, ParseQuery(Bare(q)).pairs);
      }
    }
  }
}
