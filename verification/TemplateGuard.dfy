/** The guard of noninterference read off the template: a well-escaped template
    with no placeholder inside an escape, plain names, and what the eligibility
    check counts (traceRequestTarget, validatePreparationEligibility). */
module TemplateGuard {
  import opened Base
  import opened Headers
  import opened PathTemplate
  import opened UrlTrace
  import opened Masking
  import opened Percent
  import opened Legibility
  import opened QueryNames
  import opened TargetTrace
  import opened TraceGuard
  import opened TargetExact
  import N = Noninterference

  // ------------------------------------------------------------ whole escapes

  /** Well escaped in its known text, and with no gap inside an escape. */
  predicate Whole(s: Masked) {
    WholeFrom(s, 0)
  }

  predicate WholeFrom(s: Masked, due: nat) {
    WellFrom(Bare(s), due) && Unbroken(s, due)
  }

  lemma BareAt(s: Masked, i: nat)
    requires i < |s| && s[i].Known?
    ensures Bare(s) == Bare(s[..i]) + ([s[i].c] + Bare(s[i + 1..]))
  {
    FillAround(s, i, Always([]));
  }

  /** Cut at a byte that no escape contains, both sides are whole. */
  lemma CutWhole(s: Masked, i: nat)
    requires Whole(s) && i < |s| && s[i].Known? && !IsHex(s[i].c) && s[i].c != '%'
    ensures Whole(s[..i]) && Whole(s[i..]) && Whole(s[i + 1..])
  {
    BareAt(s, i);
    var a, c, b := s[..i], s[i].c, s[i + 1..];
    WellAround(Bare(a), c, Bare(b));
    assert s == a + s[i..] && s[i..][1..] == b && s[i..][0] == s[i];
    UnbrokenSplit(a, s[i..], 0);
    FillHead(s[i..], Always([]));
  }

  lemma PrefixWhole(s: Masked, stops: Text)
    requires Whole(s) && stops in {"/?#", "?#", "#", "=", "&"}
    ensures Whole(s[..Stop(s, stops)]) && Whole(s[Stop(s, stops)..])
    ensures Stop(s, stops) < |s| ==> Whole(s[Stop(s, stops) + 1..])
  {
    var i := Stop(s, stops);
    if i < |s| {
      StopIsPlain(s[i].c, stops);
      CutWhole(s, i);
    } else {
      assert s[..i] == s && s[i..] == [];
    }
  }

  lemma StopIsPlain(c: Byte, stops: Text)
    requires c in stops && stops in {"/?#", "?#", "#", "=", "&"}
    ensures !IsHex(c) && c != '%'
  {
  }

  lemma RestWholeParts(scheme: Text, r: Masked)
    requires Whole(r) && SettleRest(scheme, r).Some?
    ensures Unbroken(SettleRest(scheme, r).value.path, 0)
    ensures LitSlashes(r) ==> Unbroken(UserRegion(r[2..][..Stop(r[2..], "/?#")]), 0)
  {
    if LitSlashes(r) {
      CutWhole(r, 0);
      CutWhole(r[1..], 0);
      assert r[1..][1..] == r[2..];
      var q := r[2..];
      PrefixWhole(q, "/?#");
      PrefixWhole(q[Stop(q, "/?#")..], "?#");
      var region := q[..Stop(q, "/?#")];
      var j := LastMark(region);
      if j < |region| && region[j].Known? {
        CutWhole(region, j);
      }
    } else {
      PrefixWhole(r, "?#");
    }
  }

  lemma SchemeWhole(s: Masked)
    requires Whole(s) && SettleScheme(s).Some?
    ensures Whole(SettleScheme(s).value.1)
  {
    var i := StopOrGap(s, ":/?#");
    if 0 < i < |s| && s[i].c == ':' {
      CutWhole(s, i);
    }
  }

  /** In a whole text of settled shape, nothing about acceptance is open. */
  lemma WholeParses(s: Masked)
    requires Whole(s) && Settle(s).Some?
    ensures ParseSettled(s)
  {
    FragmentWhole(s);
    if Settle(s).value.shape == Missing {
      MissingRefused(s, Always(DIGITS));
    } else {
      SchemeWhole(s);
      RestWholeParts(SettleScheme(s).value.0, SettleScheme(s).value.1);
    }
  }

  lemma FragmentWhole(s: Masked)
    requires Whole(s)
    ensures Unbroken(FragmentOf(s), 0)
  {
    PrefixWhole(s, "#");
    var k := Stop(s, "#");
    if k < |s| {
      assert s[k..][1..] == s[k + 1..];
    }
  }

  lemma QueryWhole(s: Masked)
    requires Whole(s)
    ensures Whole(QueryOf(s))
  {
    PrefixWhole(s, "?#");
    var k := Stop(s, "?#");
    var tail := s[k..];
    if tail != [] && tail[0] == Known('?') {
      assert tail[1..] == s[k + 1..];
      PrefixWhole(tail[1..], "#");
    }
  }

  // --------------------------------------------------- public values keep it whole

  lemma {:induction false} KnownsUnbroken(x: Text, rest: Masked, due: nat)
    requires WellFrom(x, due) && Unbroken(rest, 0)
    ensures Unbroken(Knowns(x) + rest, due)
    decreases |x|
  {
    if x == [] {
      assert Knowns(x) + rest == rest;
    } else {
      var s := Knowns(x) + rest;
      assert s[0] == Known(x[0]) && s[1..] == Knowns(x[1..]) + rest;
      KnownsUnbroken(x[1..], rest, if due > 0 then due - 1 else if x[0] == '%' then 2 else 0);
    }
  }

  lemma KnownsWhole(x: Text, rest: Masked)
    requires WellEscaped(x) && Whole(rest)
    ensures Whole(Knowns(x) + rest)
  {
    KnownsUnbroken(x, rest, 0);
    FillConcat(Knowns(x), rest, Always([]));
    FillKnowns(x, Always([]));
    WellConcat(x, Bare(rest), 0);
  }

  lemma {:induction false} ExpandWhole(g: Masked, params: map<Text, Value>, due: nat)
    requires WholeFrom(g, due)
    ensures WholeFrom(Expand(g, params), due)
    decreases |g|
  {
    if g == [] {
    } else if g[0].Known? {
      FillHead(g, Always([]));
      ExpandKnown(g, params);
      ExpandWhole(g[1..], params, if due > 0 then due - 1 else if g[0].c == '%' then 2 else 0);
      KnownWhole(g[0].c, Expand(g[1..], params), due);
    } else {
      assert Bare(g) == [] + Bare(g[1..]) == Bare(g[1..]);
      ExpandWhole(g[1..], params, 0);
      GapWhole(g[0], Expand(g[1..], params), params);
    }
  }

  lemma KnownWhole(c: Byte, rest: Masked, due: nat)
    requires if due > 0 then IsHex(c) && WholeFrom(rest, due - 1) else WholeFrom(rest, if c == '%' then 2 else 0)
    ensures WholeFrom([Known(c)] + rest, due)
  {
    var s := [Known(c)] + rest;
    assert s[1..] == rest;
    FillHead(s, Always([]));
  }

  lemma GapWhole(p: Piece, rest: Masked, params: map<Text, Value>)
    requires p.Gap? && Whole(rest)
    ensures Whole(ExpandPiece(p, params) + rest)
  {
    if p.name in params && params[p.name].public {
      EscapedIsProper(params[p.name].raw);
      KnownsWhole(PathEscape(params[p.name].raw), rest);
    } else {
      var s := [p] + rest;
      assert s[1..] == rest && Bare(s) == [] + Bare(rest) == Bare(rest);
    }
  }

  // ------------------------------------------------------------------ query names

  /** Every private gap stands behind the equals sign of its piece. */
  predicate NamesPublic(q: Masked, params: map<Text, Value>)
    decreases |q|
  {
    var i := Stop(q, "&");
    var h := q[..i];
    PublicOnly(h[..Stop(h, "=")], params) && (i < |q| ==> NamesPublic(q[i + 1..], params))
  }

  predicate PrivateNamesUncounted(x: Text, params: map<Text, Value>) {
    forall k :: k in params && !params[k].public ==> SumNames(Pieces(x), Placeholder(k)) == 0
  }

  lemma BracedFits(q: Masked, params: map<Text, Value>)
    requires GapsKnown(q, params) && PlainParams(params)
    ensures Fits(q, Braced(), "&") && Fits(q, Braced(), "=")
  {
    assert forall c: Byte :: c in "&" || c in "=" ==> Delimiter(c);
  }

  lemma LastPieceSum(x: Text, w: Text)
    requires w != [] && IndexOf(x, '&') == |x|
    ensures SumNames(Pieces(x), w) == Count(NamePart(x), w)
  {
    SumsCons(x, [], w);
    assert [x] + [] == [x];
  }

  lemma FirstPieceSum(x: Text, i: nat, w: Text)
    requires w != [] && i == IndexOf(x, '&') < |x|
    ensures SumNames(Pieces(x), w) == Count(NamePart(x[..i]), w) + SumNames(Pieces(x[i + 1..]), w)
  {
    var first, rest := x[..i], Pieces(x[i + 1..]);
    PiecesAt(x, i);
    SumsCons(first, rest, w);
  }

  lemma PiecesAt(x: Text, i: nat)
    requires i == IndexOf(x, '&') < |x|
    ensures Pieces(x) == [x[..i]] + Pieces(x[i + 1..])
  {
  }

  /** The name of the first piece of a template query. */
  function FirstName(q: Masked): Masked {
    var h := q[..Stop(q, "&")];
    h[..Stop(h, "=")]
  }

  lemma FirstNameFilled(q: Masked, params: map<Text, Value>)
    requires GapsKnown(q, params) && PlainParams(params)
    ensures
      var x := Fill(q, Braced());
      NamePart(x[..IndexOf(x, '&')]) == Fill(FirstName(q), Braced())
  {
    var h := q[..Stop(q, "&")];
    BracedFits(q, params);
    AmpersandAround(q, Braced());
    assert GapsKnown(h, params);
    BracedFits(h, params);
    FirstKnown(h, '=', Braced());
  }

  /** A placeholder counted in no name is in neither the first name nor the rest. */
  lemma PieceUncounted(q: Masked, params: map<Text, Value>, w: Text)
    requires GapsKnown(q, params) && PlainParams(params) && w != [] && SumNames(Pieces(Fill(q, Braced())), w) == 0
    ensures Count(Fill(FirstName(q), Braced()), w) == 0
    ensures Stop(q, "&") < |q| ==> SumNames(Pieces(Fill(q[Stop(q, "&") + 1..], Braced())), w) == 0
  {
    var x := Fill(q, Braced());
    FirstNameFilled(q, params);
    BracedFits(q, params);
    AmpersandAround(q, Braced());
    var i := IndexOf(x, '&');
    if i < |x| {
      FirstPieceSum(x, i, w);
    } else {
      LastPieceSum(x, w);
      assert x[..i] == x;
    }
  }

  lemma FirstNamePublic(q: Masked, params: map<Text, Value>)
    requires GapsKnown(q, params) && PlainParams(params) && PrivateNamesUncounted(Fill(q, Braced()), params)
    ensures PublicOnly(FirstName(q), params)
  {
    forall k | k in params && !params[k].public
      ensures Count(Fill(FirstName(q), Braced()), Placeholder(k)) == 0
    {
      PieceUncounted(q, params, Placeholder(k));
    }
    assert GapsKnown(FirstName(q), params);
    ZeroIsPublic(FirstName(q), params);
  }

  lemma LaterUncounted(q: Masked, params: map<Text, Value>)
    requires GapsKnown(q, params) && PlainParams(params) && PrivateNamesUncounted(Fill(q, Braced()), params)
    requires Stop(q, "&") < |q|
    ensures PrivateNamesUncounted(Fill(q[Stop(q, "&") + 1..], Braced()), params)
    ensures GapsKnown(q[Stop(q, "&") + 1..], params)
  {
    forall k | k in params && !params[k].public
      ensures SumNames(Pieces(Fill(q[Stop(q, "&") + 1..], Braced())), Placeholder(k)) == 0
    {
      PieceUncounted(q, params, Placeholder(k));
    }
  }

  /** Where the trace counts no private name, the names are public. */
  lemma {:induction false} CountedNames(q: Masked, params: map<Text, Value>)
    requires GapsKnown(q, params) && PlainParams(params) && PrivateNamesUncounted(Fill(q, Braced()), params)
    ensures NamesPublic(q, params)
    decreases |q|
  {
    FirstNamePublic(q, params);
    if Stop(q, "&") >= |q| {
    } else {
      LaterUncounted(q, params);
      CountedNames(q[Stop(q, "&") + 1..], params);
    }
  }

  /** Public values without ampersands leave every name of the mask free of gaps. */
  lemma {:induction false} PublicNamesFree(q: Masked, params: map<Text, Value>)
    requires NamesPublic(q, params) && OpenAvoids(params, "&")
    ensures NamesFree(Expand(q, params))
    decreases |q|
  {
    var i, u := Stop(q, "&"), Expand(q, params);
    var h := q[..i];
    ExpandStop(q, params, "&");
    NameExpands(h, params);
    if i >= |q| {
      assert q[i..] == [] && u[Stop(u, "&")..] == [];
    } else {
      PublicNamesFree(q[i + 1..], params);
      ExpandKnown(q[i..], params);
      assert q[i..][1..] == q[i + 1..];
      assert u[Stop(u, "&")..][1..] == u[Stop(u, "&") + 1..];
    }
  }

  /** The name of an expanded piece is public text. */
  lemma NameExpands(h: Masked, params: map<Text, Value>)
    requires PublicOnly(h[..Stop(h, "=")], params)
    ensures var u := Expand(h, params); GapFree(u[..Stop(u, "=")])
  {
    var e := Stop(h, "=");
    ExpandAt(h, e, params);
    ExpandPublic(h[..e], params);
    if e < |h| {
      ExpandKnown(h[e..], params);
    } else {
      assert h[e..] == [];
    }
    StopWithin(Expand(h[..e], params), Expand(h[e..], params));
  }

  lemma StopWithin(a: Masked, b: Masked)
    requires GapFree(a) && (b == [] || b[0] == Known('='))
    ensures GapFree((a + b)[..Stop(a + b, "=")])
  {
    var u := a + b;
    assert b != [] ==> u[|a|] == Known('=') && '=' in "=";
    assert Stop(u, "=") <= |a|;
    assert forall i :: 0 <= i < |a| ==> u[i] == a[i];
  }

  // --------------------------------------------------------------- the guard

  predicate NameCountsPublic(src: Source) {
    forall k :: k in src.params && !src.params[k].public ==> Trace(src.template.raw, k).inQueryName == 0
  }

  predicate PublicsPlain(src: Source) {
    forall k :: k in src.params && src.params[k].public ==> '&' !in src.params[k].raw
  }

  lemma PlainPublics(src: Source)
    requires PublicsPlain(src)
    ensures OpenAvoids(src.params, "&")
  {
    forall k | k in src.params && src.params[k].public
      ensures Avoids(PathEscape(src.params[k].raw), "&")
    {
      EscapedAmpersand(src.params[k].raw);
    }
  }

  /** What the eligibility check counts in query names is enough, unless a public
      value brings an ampersand. */
  lemma CountedNamesAreFree(src: Source)
    requires PlainParams(src.params) && NameCountsPublic(src) && PublicsPlain(src)
    ensures NamesFree(QueryOf(Mask(src)))
  {
    var g := TemplateGaps(src);
    TemplateParts(src);
    forall k | k in src.params && !src.params[k].public
      ensures SumNames(Pieces(Fill(QueryOf(g), Braced())), Placeholder(k)) == 0
    {
      assert Trace(src.template.raw, k).inQueryName == 0;
    }
    CountedNames(QueryOf(g), src.params);
    PlainPublics(src);
    PublicNamesFree(QueryOf(g), src.params);
    QueryExpands(g, src.params);
  }

  /** What a caller can check of the template and its public values. */
  predicate Checked(src: Source) {
    && Regular(src) && Anchored(TemplateGaps(src)) && Whole(TemplateGaps(src))
    && StructurePublic(src) && NameCountsPublic(src) && PublicsPlain(src)
  }

  /** It gives the whole guard of noninterference. */
  lemma CheckedIsGuarded(src: Source)
    requires Checked(src)
    ensures N.Guarded(src)
  {
    EligibleSettles(src);
    ExpandWhole(TemplateGaps(src), src.params, 0);
    WholeParses(Mask(src));
    QueryWhole(Mask(src));
    CountedNamesAreFree(src);
  }
}
