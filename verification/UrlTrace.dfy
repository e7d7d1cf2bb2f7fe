/** The lexical split of a path template, and where its placeholders went
    (request_plan.go). */
module UrlTrace {
  import opened Base

  /** strings.Count for a non-empty pattern. */
  function Count(s: Text, w: Text): nat
    requires w != []
    decreases |s|
  {
    if s == [] then 0 else if w <= s then 1 + Count(s[|w|..], w) else Count(s[1..], w)
  }

  predicate Delimiter(c: Byte) {
    c == ':' || c == '/' || c == '?' || c == '#' || c == '@' || c == '&' || c == '='
  }

  predicate NoDelimiter(s: Text) {
    forall i :: 0 <= i < |s| ==> !Delimiter(s[i])
  }

  /** Position of the first byte of a kind, or the length. */
  function IndexAny(s: Text, stops: Text): (i: nat)
    ensures i <= |s| && (i < |s| ==> s[i] in stops)
    ensures forall j :: 0 <= j < i ==> s[j] !in stops
  {
    if s == [] || s[0] in stops then 0 else 1 + IndexAny(s[1..], stops)
  }

  /** strings.LastIndexByte, or the length when absent. */
  function LastIndex(s: Text, c: Byte): (i: nat)
    ensures i <= |s| && (i < |s| ==> s[i] == c)
    ensures forall j :: (if i < |s| then i else -1) < j < |s| ==> s[j] != c
    decreases |s|
  {
    if s == [] then 0
    else if s[|s| - 1] == c then |s| - 1
    else
      var i := LastIndex(s[..|s| - 1], c);
      if i < |s| - 1 then i else |s|
  }

  datatype Parts = Parts(scheme: Text, authority: Text, userinfo: Text, path: Text, query: Text, fragment: Text)

  function SplitScheme(raw: Text): (Text, Text) {
    var colon := IndexOf(raw, ':');
    if 0 < colon < |raw| && IndexAny(raw[..colon], "/?#") == colon then (raw[..colon], raw[colon + 1..])
    else ([], raw)
  }

  /** Authority, userinfo and the rest, after an optional `//`. */
  function SplitAuthority(rest: Text): (Text, Text, Text) {
    if "//" <= rest then
      var r := rest[2..];
      var end := IndexAny(r, "/?#");
      var part := r[..end];
      var at := LastIndex(part, '@');
      if at < |part| then (part[at + 1..], part[..at], r[end..]) else (part, [], r[end..])
    else ([], [], rest)
  }

  function SplitQuery(rest: Text): (Text, Text) {
    if "?" <= rest then
      var r := rest[1..];
      var end := IndexOf(r, '#');
      (r[..end], r[end..])
    else ([], rest)
  }

  function SplitFragment(rest: Text): Text {
    if "#" <= rest then rest[1..] else []
  }

  /** splitPathTraceSource. */
  function Split(raw: Text): Parts {
    var (scheme, afterScheme) := SplitScheme(raw);
    var (authority, userinfo, afterAuthority) := SplitAuthority(afterScheme);
    var end := IndexAny(afterAuthority, "?#");
    var (query, afterQuery) := SplitQuery(afterAuthority[end..]);
    Parts(scheme, authority, userinfo, afterAuthority[..end], query, SplitFragment(afterQuery))
  }

  // ---------------------------------------------------------- counting pieces

  /** A placeholder cannot reach over a byte it does not contain. */
  lemma {:induction false} CountOver(a: Text, b: Text, w: Text)
    requires w != [] && (b == [] || b[0] !in w)
    ensures Count(a + b, w) == Count(a, w) + Count(b, w)
    decreases |a|
  {
    if a == [] {
      assert a + b == b;
    } else {
      PrefixStaysLeft(a, b, w);
      if w <= a {
        assert (a + b)[|w|..] == a[|w|..] + b;
        CountOver(a[|w|..], b, w);
      } else {
        assert (a + b)[1..] == a[1..] + b;
        CountOver(a[1..], b, w);
      }
    }
  }

  lemma ReachesOver(a: Text, b: Text, w: Text)
    requires w <= a + b && |w| > |a|
    ensures b != [] && b[0] in w
  {
    assert w[|a|] == (a + b)[|a|];
  }

  lemma PrefixStaysLeft(a: Text, b: Text, w: Text)
    requires w != [] && (b == [] || b[0] !in w)
    ensures w <= a + b && a != [] <==> w <= a && a != []
  {
    if a != [] && w <= a + b {
      if |w| > |a| {
        ReachesOver(a, b, w);
      }
      assert (a + b)[..|w|] == a[..|w|];
    }
    if a != [] && w <= a {
      assert (a + b)[..|w|] == a[..|w|];
    }
  }

  /** Dropping a separator byte loses no placeholder. */
  lemma CountAcross(a: Text, c: Byte, b: Text, w: Text)
    requires w != [] && c !in w
    ensures Count(a + ([c] + b), w) == Count(a, w) + Count(b, w)
  {
    CountOver(a, [c] + b, w);
    assert ([c] + b)[1..] == b;
    assert !(w <= [c] + b);
  }

  lemma SplitHere(s: Text, i: nat)
    requires i <= |s|
    ensures s == s[..i] + s[i..] && (i < |s| ==> s == s[..i] + ([s[i]] + s[i + 1..]))
  {
  }

  lemma CountSplit(s: Text, i: nat, w: Text)
    requires w != [] && i <= |s| && (i == |s| || s[i] !in w)
    ensures Count(s, w) == Count(s[..i], w) + Count(s[i..], w)
    ensures i < |s| ==> Count(s, w) == Count(s[..i], w) + Count(s[i + 1..], w)
  {
    SplitHere(s, i);
    CountOver(s[..i], s[i..], w);
    if i < |s| {
      CountAcross(s[..i], s[i], s[i + 1..], w);
    }
  }

  lemma CountSkip(s: Text, w: Text)
    requires w != [] && s != [] && s[0] !in w
    ensures Count(s, w) == Count(s[1..], w)
  {
  }

  predicate Delimited(w: Text) {
    w != [] && NoDelimiter(w)
  }

  lemma DelimiterOutside(w: Text, c: Byte)
    requires Delimited(w) && Delimiter(c)
    ensures c !in w
  {
  }

  lemma SchemeCount(raw: Text, w: Text)
    requires Delimited(w)
    ensures Count(raw, w) == Count(SplitScheme(raw).0, w) + Count(SplitScheme(raw).1, w)
  {
    var colon := IndexOf(raw, ':');
    if colon < |raw| {
      DelimiterOutside(w, raw[colon]);
      CountSplit(raw, colon, w);
    }
  }

  lemma TwoSlashes(rest: Text, w: Text)
    requires Delimited(w) && "//" <= rest
    ensures Count(rest, w) == Count(rest[2..], w)
  {
    DelimiterOutside(w, '/');
    CountSkip(rest, w);
    assert rest[1..][1..] == rest[2..];
    CountSkip(rest[1..], w);
  }

  lemma UserinfoCount(part: Text, at: nat, w: Text)
    requires Delimited(w) && at < |part| && part[at] == '@'
    ensures Count(part, w) == Count(part[at + 1..], w) + Count(part[..at], w)
  {
    DelimiterOutside(w, '@');
    CountSplit(part, at, w);
  }

  lemma AuthorityEnd(r: Text, w: Text)
    requires Delimited(w)
    ensures var end := IndexAny(r, "/?#"); Count(r, w) == Count(r[..end], w) + Count(r[end..], w)
  {
    var end := IndexAny(r, "/?#");
    if end < |r| { DelimiterOutside(w, r[end]); }
    CountSplit(r, end, w);
  }

  lemma AuthorityCount(rest: Text, w: Text)
    requires Delimited(w)
    ensures
      var (authority, userinfo, after) := SplitAuthority(rest);
      Count(rest, w) == Count(authority, w) + Count(userinfo, w) + Count(after, w)
  {
    if "//" <= rest {
      TwoSlashes(rest, w);
      var r := rest[2..];
      AuthorityEnd(r, w);
      var part := r[..IndexAny(r, "/?#")];
      var at := LastIndex(part, '@');
      if at < |part| {
        UserinfoCount(part, at, w);
      }
    }
  }

  lemma QueryCount(rest: Text, w: Text)
    requires Delimited(w)
    ensures Count(rest, w) == Count(SplitQuery(rest).0, w) + Count(SplitQuery(rest).1, w)
  {
    if "?" <= rest {
      DelimiterOutside(w, '?');
      CountSkip(rest, w);
      var r := rest[1..];
      var end := IndexOf(r, '#');
      if end < |r| { DelimiterOutside(w, '#'); }
      CountSplit(r, end, w);
    }
  }

  /** What remains for the fragment starts with '#', or is empty. */
  lemma FragmentCount(after: Text, w: Text)
    requires Delimited(w) && (after == [] || after[0] == '#')
    ensures Count(after, w) == Count(SplitFragment(after), w)
  {
    if after != [] {
      assert "#" <= after by { assert after[..1] == "#"; }
      DelimiterOutside(w, '#');
      CountSkip(after, w);
    }
  }

  lemma AfterQuery(rest: Text)
    requires rest == [] || rest[0] == '?' || rest[0] == '#'
    ensures SplitQuery(rest).1 == [] || SplitQuery(rest).1[0] == '#'
  {
    if rest != [] && rest[0] == '?' {
      assert "?" <= rest by { assert rest[..1] == "?"; }
    }
  }

  /** Placeholder conservation: for any template and any placeholder free of URL
      delimiters, no occurrence is lost or counted twice by the split. */
  lemma SplitConserves(raw: Text, w: Text)
    requires Delimited(w)
    ensures
      var p := Split(raw);
      Count(raw, w) == Count(p.scheme, w) + Count(p.userinfo, w) + Count(p.authority, w)
                       + Count(p.path, w) + Count(p.query, w) + Count(p.fragment, w)
  {
    SchemeCount(raw, w);
    var afterScheme := SplitScheme(raw).1;
    AuthorityCount(afterScheme, w);
    var after := SplitAuthority(afterScheme).2;
    var end := IndexAny(after, "?#");
    if end < |after| { DelimiterOutside(w, after[end]); }
    CountSplit(after, end, w);
    QueryCount(after[end..], w);
    AfterQuery(after[end..]);
    FragmentCount(SplitQuery(after[end..]).1, w);
  }

  // -------------------------------------------------------------- query names

  /** The pieces of strings.Split(s, "&"). */
  function Pieces(s: Text): seq<Text>
    decreases |s|, 1
  {
    PiecesFrom(s, IndexOf(s, '&'))
  }

  function PiecesFrom(s: Text, i: nat): seq<Text>
    requires i <= |s|
    decreases |s|, 0
  {
    if i < |s| then [s[..i]] + Pieces(s[i + 1..]) else [s]
  }

  function NamePart(piece: Text): Text {
    piece[..IndexOf(piece, '=')]
  }

  function ValuePart(piece: Text): Text {
    var i := IndexOf(piece, '=');
    if i < |piece| then piece[i + 1..] else []
  }

  function SumNames(pieces: seq<Text>, w: Text): nat
    requires w != []
  {
    if pieces == [] then 0 else SumNames(pieces[..|pieces| - 1], w) + Count(NamePart(pieces[|pieces| - 1]), w)
  }

  function SumValues(pieces: seq<Text>, w: Text): nat
    requires w != []
  {
    if pieces == [] then 0 else SumValues(pieces[..|pieces| - 1], w) + Count(ValuePart(pieces[|pieces| - 1]), w)
  }

  lemma {:induction false} SumsCons(first: Text, rest: seq<Text>, w: Text)
    requires w != []
    ensures SumNames([first] + rest, w) == Count(NamePart(first), w) + SumNames(rest, w)
    ensures SumValues([first] + rest, w) == Count(ValuePart(first), w) + SumValues(rest, w)
    decreases |rest|
  {
    var all := [first] + rest;
    if rest == [] {
      assert all[..0] == [];
    } else {
      assert all[..|all| - 1] == [first] + rest[..|rest| - 1];
      SumsCons(first, rest[..|rest| - 1], w);
    }
  }

  lemma PieceCount(piece: Text, w: Text)
    requires Delimited(w)
    ensures Count(piece, w) == Count(NamePart(piece), w) + Count(ValuePart(piece), w)
  {
    var i := IndexOf(piece, '=');
    if i < |piece| { DelimiterOutside(w, '='); }
    CountSplit(piece, i, w);
  }

  /** The occurrences in a query are exactly those in the names and in the values
      of its pieces. */
  predicate Accounted(query: Text, pieces: seq<Text>, w: Text)
    requires w != []
  {
    Count(query, w) == SumNames(pieces, w) + SumValues(pieces, w)
  }

  lemma OnlyPiece(query: Text, w: Text)
    requires Delimited(w)
    ensures Accounted(query, [query], w)
  {
    PieceCount(query, w);
    SumsCons(query, [], w);
    assert [query] == [query] + [];
  }

  /** One more piece in front of pieces that are already accounted for. */
  lemma PieceAdded(query: Text, i: nat, pieces: seq<Text>, w: Text)
    requires Delimited(w) && i < |query| && query[i] == '&'
    requires Accounted(query[i + 1..], pieces, w)
    ensures Accounted(query, [query[..i]] + pieces, w)
  {
    DelimiterOutside(w, '&');
    CountSplit(query, i, w);
    PieceCount(query[..i], w);
    SumsCons(query[..i], pieces, w);
  }

  /** For every query and placeholder, names and values account for everything. */
  lemma {:induction false} QuerySplitsExactly(query: Text, w: Text)
    requires Delimited(w)
    ensures Accounted(query, Pieces(query), w)
    decreases |query|
  {
    var i := IndexOf(query, '&');
    if i >= |query| {
    } else {
      QuerySplitsExactly(query[i + 1..], w);
    }
    AccountedFrom(query, i, w);
    FirstPiece(query);
  }

  lemma AccountedFrom(query: Text, i: nat, w: Text)
    requires Delimited(w) && i == IndexOf(query, '&')
    requires i < |query| ==> Accounted(query[i + 1..], Pieces(query[i + 1..]), w)
    ensures Accounted(query, PiecesFrom(query, i), w)
  {
    if i == |query| {
      OnlyPiece(query, w);
    } else {
      MoreAccounted(query, i, Pieces(query[i + 1..]), w);
    }
  }

  lemma MoreAccounted(query: Text, i: nat, later: seq<Text>, w: Text)
    requires Delimited(w) && i < |query| && query[i] == '&'
    requires later == Pieces(query[i + 1..]) && Accounted(query[i + 1..], later, w)
    ensures Accounted(query, PiecesFrom(query, i), w)
  {
    PieceAdded(query, i, later, w);
    assert PiecesFrom(query, i) == [query[..i]] + later;
  }

  lemma FirstPiece(query: Text)
    ensures Pieces(query) == PiecesFrom(query, IndexOf(query, '&'))
  {
  }

  lemma EmptyQuery(w: Text)
    requires w != []
    ensures SumNames(Pieces([]), w) == 0
  {
    var none: Text := [];
    assert Pieces(none) == [none] && NamePart(none) == [];
    assert [none][..0] == [];
  }

  /** countQueryNameToken. */
  method CountQueryNames(query: Text, w: Text) returns (count: nat)
    requires w != []
    ensures count == SumNames(Pieces(query), w)
  {
    if query == [] {
      EmptyQuery(w);
      return 0;
    }
    var pieces := Pieces(query);
    count := 0;
    for n := 0 to |pieces|
      invariant count == SumNames(pieces[..n], w)
    {
      assert pieces[..n + 1][..n] == pieces[..n];
      count := count + Count(NamePart(pieces[n]), w);
    }
    assert pieces[..|pieces|] == pieces;
  }
}
