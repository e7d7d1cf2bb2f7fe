/** The placeholder counts of a path trace, and what they guarantee about the
    resolved target (traceRequestTarget, splitPathTraceSource). */
module TraceGuard {
  import opened Base
  import opened Headers
  import opened PathTemplate
  import opened UrlTrace
  import opened Masking
  import opened TargetTrace

  // ------------------------------------------------- the template's own parts

  function SchemeGaps(g: Masked): (Masked, Masked) {
    var k := Stop(g, ":/?#");
    if 0 < k < |g| && g[k] == Known(':') then (g[..k], g[k + 1..]) else ([], g)
  }

  function AfterAuthority(r: Masked): Masked {
    if LitSlashes(r) then r[2..][Stop(r[2..], "/?#")..] else r
  }

  function PathGaps(g: Masked): Masked {
    PreQuery(AfterAuthority(SchemeGaps(g).1))
  }

  /** The pieces of a region after its last at sign. */
  function HostGaps(region: Masked): Masked
    decreases |region|
  {
    if region == [] || region[|region| - 1] == Known('@') then []
    else HostGaps(region[..|region| - 1]) + [region[|region| - 1]]
  }

  function HostOf(r: Masked): Masked {
    if LitSlashes(r) then HostGaps(r[2..][..Stop(r[2..], "/?#")]) else []
  }

  function AuthorityGaps(g: Masked): Masked {
    HostOf(SchemeGaps(g).1)
  }

  /** A filling that neither splits nor vanishes. */
  predicate Tame(s: Masked, v: Text -> Text) {
    forall i :: 0 <= i < |s| && s[i].Gap? ==> v(s[i].name) != [] && Avoids(v(s[i].name), ":/?#@")
  }

  lemma TameFits(s: Masked, v: Text -> Text)
    requires Tame(s, v)
    ensures Fits(s, v, ":/?#") && Fits(s, v, "/?#") && Fits(s, v, "@")
  {
    assert forall c: Byte :: c in ":/?#" ==> c in ":/?#@";
    assert forall c: Byte :: c in "/?#" ==> c in ":/?#@";
    assert forall c: Byte :: c in "@" ==> c in ":/?#@";
  }

  lemma {:induction false} TameNonEmpty(s: Masked, v: Text -> Text)
    requires Tame(s, v)
    ensures |Fill(s, v)| >= |s|
  {
    if s == [] {
    } else {
      TameNonEmpty(s[1..], v);
    }
  }

  lemma TameScheme(g: Masked, v: Text -> Text)
    requires Tame(g, v)
    ensures SplitScheme(Fill(g, v)) == (Fill(SchemeGaps(g).0, v), Fill(SchemeGaps(g).1, v))
  {
    var k := Stop(g, ":/?#");
    TameFits(g, v);
    assert Tame(g[..k], v) && Fits(g[..k], v, ":/?#");
    FillAvoids(g[..k], v, ":/?#");
    TameNonEmpty(g[..k], v);
    if k < |g| {
      FillAround(g, k, v);
      SchemeAt(Fill(g[..k], v), g[k].c, Fill(g[k + 1..], v));
    } else {
      assert g[..k] == g;
      NoScheme(Fill(g, v));
    }
  }

  lemma TameSlashes(r: Masked, v: Text -> Text)
    requires Tame(r, v)
    ensures TwoSlash(Fill(r, v)) <==> LitSlashes(r)
    ensures LitSlashes(r) ==> Fill(r, v)[2..] == Fill(r[2..], v)
  {
    TameFits(r, v);
    SlashesAreKnown(r, v);
    if TwoSlash(Fill(r, v)) {
      TameSlash(r, v);
      FillHead(r, v);
      TameSlash(r[1..], v);
    }
  }

  lemma TameSlash(r: Masked, v: Text -> Text)
    requires Tame(r, v) && Slash(Fill(r, v))
    ensures r != [] && r[0] == Known('/')
  {
    assert '/' in ":/?#@";
  }

  lemma {:induction false} TameHost(region: Masked, v: Text -> Text)
    requires Tame(region, v)
    ensures HostPart(Fill(region, v)).1 == Fill(HostGaps(region), v)
    decreases |region|
  {
    TameFits(region, v);
    if region == [] {
      NoAt([]);
    } else {
      var front, last := region[..|region| - 1], region[|region| - 1];
      assert region == front + [last];
      FillConcat(front, [last], v);
      FillOne(last, v);
      if last == Known('@') {
        AtSplit(Fill(front, v), []);
      } else {
        TameHost(front, v);
        FillConcat(HostGaps(front), [last], v);
        HostSnoc(Fill(front, v), FillPiece(last, v));
      }
    }
  }

  lemma HostSnoc(x: Text, y: Text)
    requires Avoids(y, "@")
    ensures HostPart(x + y).1 == HostPart(x).1 + y
  {
    var i := LastIndex(x, '@');
    LastSnoc(x, y);
    if i < |x| {
      assert (x + y)[i + 1..] == x[i + 1..] + y;
    }
  }

  lemma LastSnoc(x: Text, y: Text)
    requires Avoids(y, "@")
    ensures
      var i := LastIndex(x, '@');
      LastIndex(x + y, '@') == if i < |x| then i else |x + y|
  {
    assert forall k :: 0 <= k < |x| ==> (x + y)[k] == x[k];
    assert forall k :: |x| <= k < |x + y| ==> (x + y)[k] == y[k - |x|];
  }

  lemma TameAuthority(r: Masked, v: Text -> Text)
    requires Tame(r, v)
    ensures SplitAuthority(Fill(r, v)).0 == Fill(HostOf(r), v)
    ensures SplitAuthority(Fill(r, v)).2 == Fill(AfterAuthority(r), v)
  {
    TameSlashes(r, v);
    SlashPrefix(Fill(r, v));
    if LitSlashes(r) {
      TameAfterSlashes(r[2..], v);
    }
  }

  lemma TameAfterSlashes(q: Masked, v: Text -> Text)
    requires Tame(q, v)
    ensures
      var x, j := Fill(q, v), Stop(q, "/?#");
      && HostPart(x[..IndexAny(x, "/?#")]).1 == Fill(HostGaps(q[..j]), v)
      && x[IndexAny(x, "/?#")..] == Fill(q[j..], v)
  {
    TameFits(q, v);
    FillStop(q, "/?#", v);
    TameHost(q[..Stop(q, "/?#")], v);
  }

  /** The lexical split of a template takes its placeholders apart unharmed. */
  lemma TemplateSplit(g: Masked, v: Text -> Text)
    requires Tame(g, v)
    ensures
      var parts := Split(Fill(g, v));
      && parts.scheme == Fill(SchemeGaps(g).0, v)
      && parts.authority == Fill(AuthorityGaps(g), v)
      && parts.path == Fill(PathGaps(g), v)
      && parts.query == Fill(QueryOf(g), v)
  {
    TameFits(g, v);
    QuerySound(g, v);
    TameScheme(g, v);
    var r := SchemeGaps(g).1;
    TameRest(g, v);
    TameAuthority(r, v);
    TameFits(AfterAuthority(r), v);
    PreQuerySound(AfterAuthority(r), v);
  }

  lemma TameRest(g: Masked, v: Text -> Text)
    requires Tame(g, v)
    ensures Tame(SchemeGaps(g).1, v) && Tame(AfterAuthority(SchemeGaps(g).1), v)
  {
  }

  // ---------------------------------------------------------- counts see gaps

  lemma {:induction false} CountFinds(x: Text, i: nat, w: Text)
    requires w != [] && i <= |x| && w <= x[i..]
    ensures Count(x, w) > 0
    decreases |x|
  {
    if w <= x {
    } else {
      assert x[1..][i - 1..] == x[i..];
      CountFinds(x[1..], i - 1, w);
    }
  }

  /** A placeholder among the pieces of a part is counted in it. */
  lemma GapCounted(s: Masked, i: nat)
    requires i < |s| && s[i].Gap?
    ensures Count(Fill(s, Braced()), Placeholder(s[i].name)) > 0
  {
    var v, w := Braced(), Placeholder(s[i].name);
    FillAtGap(s, i, v);
    var a, b := Fill(s[..i], v), Fill(s[i + 1..], v);
    assert (a + (w + b))[|a|..] == w + b;
    CountFinds(a + (w + b), |a|, w);
  }

  lemma BracedTame(g: Masked)
    requires forall i :: 0 <= i < |g| && g[i].Gap? ==> NoDelimiter(g[i].name)
    ensures Tame(g, Braced())
  {
    forall i | 0 <= i < |g| && g[i].Gap?
      ensures Braced()(g[i].name) != [] && Avoids(Braced()(g[i].name), ":/?#@")
    {
      PlaceholderTame(g[i].name);
    }
  }

  lemma PlaceholderTame(name: Text)
    requires NoDelimiter(name)
    ensures Avoids(Placeholder(name), ":/?#@")
  {
    assert forall c: Byte :: c in ":/?#@" ==> Delimiter(c);
  }

  // --------------------------------------- from the template to what is masked

  predicate PublicOnly(x: Masked, params: map<Text, Value>) {
    forall i :: 0 <= i < |x| && x[i].Gap? ==> x[i].name in params && params[x[i].name].public
  }

  predicate NoStop(x: Masked, stops: Text) {
    forall i :: 0 <= i < |x| && x[i].Known? ==> x[i].c !in stops
  }

  lemma {:induction false} ExpandConcat(a: Masked, b: Masked, params: map<Text, Value>)
    ensures Expand(a + b, params) == Expand(a, params) + Expand(b, params)
  {
    if a == [] {
      assert a + b == b;
    } else {
      assert (a + b)[1..] == a[1..] + b;
      ExpandConcat(a[1..], b, params);
      ConcatAssociates(ExpandPiece(a[0], params), Expand(a[1..], params), Expand(b, params));
    }
  }

  lemma ExpandAt(g: Masked, i: nat, params: map<Text, Value>)
    requires i <= |g|
    ensures Expand(g, params) == Expand(g[..i], params) + Expand(g[i..], params)
  {
    assert g == g[..i] + g[i..];
    ExpandConcat(g[..i], g[i..], params);
  }

  lemma ExpandKnown(g: Masked, params: map<Text, Value>)
    requires g != [] && g[0].Known?
    ensures Expand(g, params) == [g[0]] + Expand(g[1..], params)
  {
  }

  lemma {:induction false} ExpandPublic(x: Masked, params: map<Text, Value>)
    requires PublicOnly(x, params)
    ensures GapFree(Expand(x, params))
  {
    if x == [] {
    } else {
      ExpandPublic(x[1..], params);
    }
  }

  /** No public value brings one of the bytes. */
  predicate OpenAvoids(params: map<Text, Value>, stops: Text) {
    forall k :: k in params && params[k].public ==> Avoids(PathEscape(params[k].raw), stops)
  }

  lemma DelimitersAvoided(params: map<Text, Value>)
    ensures OpenAvoids(params, "/?#") && OpenAvoids(params, "?#") && OpenAvoids(params, "#")
  {
    assert forall c: Byte :: c in "?#" || c in "#" ==> c in "/?#";
    forall k | k in params
      ensures Avoids(PathEscape(params[k].raw), "/?#")
    {
      EscapedFits(params[k].raw);
    }
  }

  lemma {:induction false} ExpandNoStop(x: Masked, params: map<Text, Value>, stops: Text)
    requires NoStop(x, stops) && OpenAvoids(params, stops)
    ensures NoStop(Expand(x, params), stops)
  {
    if x == [] {
    } else {
      ExpandNoStop(x[1..], params, stops);
    }
  }

  lemma StopAt(a: Masked, b: Masked, stops: Text)
    requires NoStop(a, stops) && (b == [] || (b[0].Known? && b[0].c in stops))
    ensures Stop(a + b, stops) == |a| && (a + b)[..|a|] == a && (a + b)[|a|..] == b
  {
    assert forall j :: 0 <= j < |a| ==> (a + b)[j] == a[j];
    assert b != [] ==> (a + b)[|a|] == b[0];
  }

  lemma ExpandStop(g: Masked, params: map<Text, Value>, stops: Text)
    requires OpenAvoids(params, stops)
    ensures
      var k, u := Stop(g, stops), Expand(g, params);
      u[..Stop(u, stops)] == Expand(g[..k], params) && u[Stop(u, stops)..] == Expand(g[k..], params)
  {
    var k := Stop(g, stops);
    ExpandAt(g, k, params);
    ExpandNoStop(g[..k], params, stops);
    if k < |g| {
      ExpandKnown(g[k..], params);
    }
    StopAt(Expand(g[..k], params), Expand(g[k..], params), stops);
  }

  lemma ExpandSlashes(r: Masked, params: map<Text, Value>)
    requires LitSlashes(r)
    ensures LitSlashes(Expand(r, params)) && Expand(r, params)[2..] == Expand(r[2..], params)
  {
    ExpandKnown(r, params);
    ExpandKnown(r[1..], params);
    assert r[1..][1..] == r[2..];
  }

  // ------------------------------------------------ no gap outside the counts

  lemma SuffixFree(u: Masked, n: nat)
    requires n <= |u| && NoStop(u[..n], "?#") && GapFree(PreQuery(u))
    ensures GapFree(PreQuery(u[n..]))
  {
    var k := Stop(u[n..], "?#");
    assert u[..n + k] == u[..n] + u[n..][..k] && u[n + k..] == u[n..][k..];
    StopAt(u[..n + k], u[n + k..], "?#");
    assert u == u[..n + k] + u[n + k..];
    assert PreQuery(u[n..]) == PreQuery(u)[n..];
  }

  /** The path of a settled rest lies before its query. */
  lemma RestPathFree(scheme: Text, r: Masked)
    requires SettleRest(scheme, r).Some? && GapFree(PreQuery(r))
    ensures GapFree(SettleRest(scheme, r).value.path)
  {
    if LitSlashes(r) {
      var q := r[2..];
      var n := 2 + Stop(q, "/?#");
      assert forall j :: 2 <= j < n ==> r[..n][j] == q[j - 2];
      assert q[n - 2..] == r[n..];
      SuffixFree(r, n);
    }
  }

  lemma RestGuard(scheme: Text, r: Masked, params: map<Text, Value>)
    requires SettleRest(scheme, Expand(r, params)).Some? && PublicOnly(PreQuery(AfterAuthority(r)), params)
    ensures GapFree(SettleRest(scheme, Expand(r, params)).value.path)
  {
    var u := Expand(r, params);
    if LitSlashes(r) {
      var q := r[2..];
      ExpandSlashes(r, params);
      DelimitersAvoided(params);
      ExpandStop(q, params, "/?#");
      PreQueryPublic(AfterAuthority(r), params);
    } else {
      PreQueryPublic(r, params);
      RestPathFree(scheme, u);
    }
  }

  lemma PreQueryPublic(r: Masked, params: map<Text, Value>)
    requires PublicOnly(PreQuery(r), params)
    ensures GapFree(PreQuery(Expand(r, params)))
  {
    DelimitersAvoided(params);
    ExpandStop(r, params, "?#");
    ExpandPublic(PreQuery(r), params);
  }

  /** What follows a scheme made of public text: the template's rest, or nothing
      but an opaque part, or no URL at all. */
  lemma PublicScheme(s: Masked, rest: Masked)
    requires GapFree(s) && NoStop(s, "/?#")
    ensures
      var u := s + ([Known(':')] + rest);
      || u[0] == Known(':')
      || SettleScheme(u) == Some((Bare(s), rest))
      || (&& SettleScheme(u).Some? && SettleScheme(u).value.0 != []
          && SettleScheme(u).value.1 != [] && SettleScheme(u).value.1[0].Known?
          && SettleScheme(u).value.1[0].c != '/')
  {
    var u := s + ([Known(':')] + rest);
    assert forall j :: 0 <= j < |s| ==> u[j] == s[j];
    assert u[|s|] == Known(':') && u[|s| + 1..] == rest && u[..|s|] == s;
    var i := StopOrGap(u, ":/?#");
    assert i <= |s| && u[i].c == ':';
    FillGapFree(u[..i], Always([]));
    if 0 < i < |s| {
      assert u[i + 1..][0] == u[i + 1];
    }
  }

  lemma RootlessRest(scheme: Text, r: Masked)
    requires scheme != [] && r != [] && r[0].Known? && r[0].c != '/'
    ensures SettleRest(scheme, r).Some? && SettleRest(scheme, r).value.shape.rootless
  {
    FillHead(r, Always([]));
  }

  lemma SettledPathFree(u: Masked)
    requires Settle(u).Some? && GapFree(PreQuery(u))
    ensures GapFree(Settle(u).value.path)
  {
    if !(u != [] && u[0] == Known(':')) {
      var i := StopOrGap(u, ":/?#");
      var (scheme, r) := SettleScheme(u).value;
      if 0 < i < |u| && u[i].c == ':' {
        SuffixFree(u, i + 1);
      }
      RestPathFree(scheme, r);
    }
  }

  /** A template with its own scheme, all of whose gaps there are public. */
  lemma SchemeGuard(g: Masked, params: map<Text, Value>)
    requires SchemeGaps(g).0 != [] && PublicOnly(SchemeGaps(g).0, params)
    ensures
      var u, rest := Expand(g, params), Expand(SchemeGaps(g).1, params);
      || (u != [] && u[0] == Known(':'))
      || (exists scheme :: SettleScheme(u) == Some((scheme, rest)))
      || (&& SettleScheme(u).Some?
          && SettleRest(SettleScheme(u).value.0, SettleScheme(u).value.1).Some?
          && SettleRest(SettleScheme(u).value.0, SettleScheme(u).value.1).value.shape.rootless)
  {
    var k := Stop(g, ":/?#");
    var s, rest := Expand(g[..k], params), Expand(g[k + 1..], params);
    ExpandAt(g, k, params);
    ExpandKnown(g[k..], params);
    assert g[k..][1..] == g[k + 1..];
    ExpandPublic(g[..k], params);
    DelimitersAvoided(params);
    ExpandNoStop(g[..k], params, "/?#");
    PublicScheme(s, rest);
    var u := Expand(g, params);
    if u[0] != Known(':') && SettleScheme(u) != Some((Bare(s), rest)) {
      RootlessRest(SettleScheme(u).value.0, SettleScheme(u).value.1);
    }
  }

  /** A URL with a path that can be shown. */
  predicate HasPath(u: Masked) {
    Settle(u).Some? && Settle(u).value.shape != Missing && !Settle(u).value.shape.rootless
  }

  lemma PathGuardScheme(g: Masked, params: map<Text, Value>)
    requires SchemeGaps(g).0 != [] && PublicOnly(SchemeGaps(g).0, params) && PublicOnly(PathGaps(g), params)
    requires HasPath(Expand(g, params))
    ensures GapFree(Settle(Expand(g, params)).value.path)
  {
    var u, rest := Expand(g, params), Expand(SchemeGaps(g).1, params);
    SchemeGuard(g, params);
    if scheme :| SettleScheme(u) == Some((scheme, rest)) {
      RestGuard(scheme, SchemeGaps(g).1, params);
    }
  }

  lemma PathGuardSlashes(g: Masked, params: map<Text, Value>)
    requires LitSlashes(g) && PublicOnly(PathGaps(g), params) && HasPath(Expand(g, params))
    ensures GapFree(Settle(Expand(g, params)).value.path)
  {
    var u := Expand(g, params);
    ExpandSlashes(g, params);
    assert StopOrGap(u, ":/?#") == 0 && Stop(g, ":/?#") == 0;
    RestGuard([], g, params);
  }

  /** Private gaps reach the path only through the template's own path part. */
  lemma PathGuard(g: Masked, params: map<Text, Value>)
    requires PublicOnly(SchemeGaps(g).0, params) && PublicOnly(PathGaps(g), params)
    requires HasPath(Expand(g, params))
    ensures GapFree(Settle(Expand(g, params)).value.path)
  {
    if SchemeGaps(g).0 != [] {
      PathGuardScheme(g, params);
    } else if LitSlashes(g) {
      PathGuardSlashes(g, params);
    } else {
      PreQueryPublic(g, params);
      SettledPathFree(Expand(g, params));
    }
  }

  // ----------------------------------------------- templates that always settle

  /** What comes after the scheme shows by itself whether it is an authority. */
  predicate LeadKnown(r: Masked) {
    r == [] || (r[0].Known? && (r[0].c != '/' || |r| == 1 || r[1].Known?))
  }

  /** The template decides about scheme and authority before its first gap there. */
  predicate Anchored(g: Masked) {
    var (scheme, r) := SchemeGaps(g);
    var k := StopOrGap(g, ":/?#");
    (scheme == [] ==> k == |g| || g[k].Known?) && LeadKnown(r)
  }

  predicate MarkKnown(u: Masked) {
    LastMark(u) == |u| || u[LastMark(u)].Known?
  }

  lemma MarkSnoc(u: Masked, y: Masked)
    requires MarkKnown(u) && GapFree(y)
    ensures MarkKnown(u + y)
  {
    var i, j := LastMark(u), LastMark(u + y);
    assert forall k :: 0 <= k < |u| ==> (u + y)[k] == u[k];
    assert forall k :: 0 <= k < |y| ==> (u + y)[|u| + k] == y[k];
    assert j < |u| ==> i == j;
  }

  lemma AtMark(u: Masked)
    ensures MarkKnown(u + [Known('@')])
  {
    assert (u + [Known('@')])[|u|] == Known('@');
  }

  lemma {:induction false} HostSettles(region: Masked, params: map<Text, Value>)
    requires PublicOnly(HostGaps(region), params)
    ensures MarkKnown(Expand(region, params))
    decreases |region|
  {
    if region == [] {
    } else {
      var front, last := region[..|region| - 1], region[|region| - 1];
      assert region == front + [last];
      ExpandConcat(front, [last], params);
      assert [last][1..] == [] && Expand([last], params) == ExpandPiece(last, params);
      if last == Known('@') {
        AtMark(Expand(front, params));
      } else {
        assert HostGaps(region)[|HostGaps(front)|] == last;
        assert forall i :: 0 <= i < |HostGaps(front)| ==> HostGaps(front)[i] == HostGaps(region)[i];
        HostSettles(front, params);
        MarkSnoc(Expand(front, params), ExpandPiece(last, params));
      }
    }
  }

  lemma RestSettles(scheme: Text, r: Masked, params: map<Text, Value>)
    requires LeadKnown(r) && PublicOnly(HostOf(r), params)
    ensures SettleRest(scheme, Expand(r, params)).Some?
  {
    if LitSlashes(r) {
      var q := r[2..];
      ExpandSlashes(r, params);
      DelimitersAvoided(params);
      ExpandStop(q, params, "/?#");
      HostSettles(q[..Stop(q, "/?#")], params);
    } else if r != [] {
      LeadExpands(r, params);
    }
  }

  lemma LeadExpands(r: Masked, params: map<Text, Value>)
    requires r != [] && LeadKnown(r) && !LitSlashes(r)
    ensures
      var u := Expand(r, params);
      u != [] && u[0] == r[0] && !LitSlashes(u) && !TwoSlash(Bare(u)) && Slash(Bare(u)) == (r[0] == Known('/'))
  {
    var u := Expand(r, params);
    ExpandKnown(r, params);
    FillHead(u, Always([]));
    assert u[1..] == Expand(r[1..], params);
    if |r| > 1 && r[1].Known? {
      ExpandKnown(r[1..], params);
      FillHead(u[1..], Always([]));
    }
  }

  /** An anchored template settles whatever the values are, once no private
      placeholder is in its scheme and authority. */
  lemma AnchoredSettles(g: Masked, params: map<Text, Value>)
    requires Anchored(g) && PublicOnly(SchemeGaps(g).0, params) && PublicOnly(AuthorityGaps(g), params)
    ensures Settle(Expand(g, params)).Some?
  {
    var u := Expand(g, params);
    if SchemeGaps(g).0 != [] {
      SchemeGuard(g, params);
      var rest := SchemeGaps(g).1;
      if SettleScheme(u).Some? && SettleScheme(u).value.1 == Expand(rest, params) {
        RestSettles(SettleScheme(u).value.0, rest, params);
      }
    } else {
      AnchoredNoScheme(g, params);
      RestSettles([], g, params);
    }
  }

  lemma AnchoredNoScheme(g: Masked, params: map<Text, Value>)
    requires Anchored(g) && SchemeGaps(g).0 == []
    ensures
      var u := Expand(g, params);
      (u != [] && u[0] == Known(':')) || SettleScheme(u) == Some(([], u))
  {
    var k := StopOrGap(g, ":/?#");
    ExpandAt(g, k, params);
    GapFreeExpands(g[..k], params);
    assert Stop(g, ":/?#") == k;
    if k < |g| {
      ExpandKnown(g[k..], params);
    } else {
      assert g[..k] == g;
    }
    FirstOfKnown(g[..k], Expand(g[k..], params));
  }

  lemma FirstOfKnown(a: Masked, b: Masked)
    requires GapFree(a) && NoStop(a, ":/?#") && (b != [] ==> b[0].Known? && b[0].c in ":/?#" && (b[0].c == ':' ==> a == []))
    ensures (a + b != [] && (a + b)[0] == Known(':')) || SettleScheme(a + b) == Some(([], a + b))
  {
    var u := a + b;
    assert forall j :: 0 <= j < |a| ==> u[j] == a[j];
    assert b != [] ==> u[|a|] == b[0];
    assert StopOrGap(u, ":/?#") == |a|;
  }

  lemma {:induction false} GapFreeExpands(x: Masked, params: map<Text, Value>)
    requires GapFree(x)
    ensures Expand(x, params) == x
  {
    if x == [] {
    } else {
      GapFreeExpands(x[1..], params);
    }
  }

  // ------------------------------------------------------------- the trace

  /** Where the placeholders of one parameter are in the template. */
  datatype Counts = Counts(inScheme: nat, inAuthority: nat, inPath: nat, inQueryName: nat)

  /** traceRequestTarget, for one parameter. */
  function Trace(template: Text, name: Text): Counts {
    var parts, w := Split(template), Placeholder(name);
    Counts(Count(parts.scheme, w), Count(parts.authority, w), Count(parts.path, w), SumNames(Pieces(parts.query), w))
  }

  predicate GapsKnown(x: Masked, params: map<Text, Value>) {
    forall i :: 0 <= i < |x| && x[i].Gap? ==> x[i].name in params
  }

  lemma ZeroIsPublic(x: Masked, params: map<Text, Value>)
    requires GapsKnown(x, params)
    requires forall k :: k in params && !params[k].public ==> Count(Fill(x, Braced()), Placeholder(k)) == 0
    ensures PublicOnly(x, params)
  {
    forall i | 0 <= i < |x| && x[i].Gap?
      ensures params[x[i].name].public
    {
      GapCounted(x, i);
    }
  }

  lemma {:induction false} HostNamed(region: Masked, params: map<Text, Value>)
    requires GapsKnown(region, params)
    ensures GapsKnown(HostGaps(region), params)
    decreases |region|
  {
    if region == [] {
    } else {
      HostNamed(region[..|region| - 1], params);
    }
  }

  /** The template's parts, as its own text splits. */
  lemma TemplateParts(src: Source)
    requires PlainParams(src.params)
    ensures
      var g, parts, v := TemplateGaps(src), Split(src.template.raw), Braced();
      && parts.scheme == Fill(SchemeGaps(g).0, v) && parts.authority == Fill(AuthorityGaps(g), v)
      && parts.path == Fill(PathGaps(g), v) && parts.query == Fill(QueryOf(g), v)
    ensures GapsKnown(TemplateGaps(src), src.params)
  {
    RenderLex(src.template.raw);
    TemplateFilled(Lex(src.template.raw), src.params.Keys);
    GapsNamed(Lex(src.template.raw), src.params.Keys);
    BracedTame(TemplateGaps(src));
    TemplateSplit(TemplateGaps(src), Braced());
  }

  /** No private parameter is counted in the scheme or the authority. */
  predicate StructurePublic(src: Source) {
    forall k :: k in src.params && !src.params[k].public ==>
      Trace(src.template.raw, k).inScheme == 0 && Trace(src.template.raw, k).inAuthority == 0
  }

  predicate PathCountsPublic(src: Source) {
    forall k :: k in src.params && !src.params[k].public ==> Trace(src.template.raw, k).inPath == 0
  }

  /** No private placeholder at all is in the query, as a name or as a value. */
  predicate QueryPublic(src: Source) {
    forall k :: k in src.params && !src.params[k].public ==> Count(Split(src.template.raw).query, Placeholder(k)) == 0
  }

  lemma StructureIsPublic(src: Source)
    requires PlainParams(src.params) && StructurePublic(src)
    ensures PublicOnly(SchemeGaps(TemplateGaps(src)).0, src.params)
    ensures PublicOnly(AuthorityGaps(TemplateGaps(src)), src.params)
  {
    var g := TemplateGaps(src);
    TemplateParts(src);
    forall k | k in src.params && !src.params[k].public
      ensures Count(Split(src.template.raw).scheme, Placeholder(k)) == 0
      ensures Count(Split(src.template.raw).authority, Placeholder(k)) == 0
    {
      assert Trace(src.template.raw, k).inScheme == 0;
    }
    AuthorityNamed(g, src.params);
    ZeroIsPublic(SchemeGaps(g).0, src.params);
    ZeroIsPublic(AuthorityGaps(g), src.params);
  }

  lemma AuthorityNamed(g: Masked, params: map<Text, Value>)
    requires GapsKnown(g, params)
    ensures GapsKnown(SchemeGaps(g).0, params) && GapsKnown(AuthorityGaps(g), params)
  {
    var r := SchemeGaps(g).1;
    if LitSlashes(r) {
      HostNamed(r[2..][..Stop(r[2..], "/?#")], params);
    }
  }

  /** The eligibility check settles every anchored target. */
  lemma EligibleSettles(src: Source)
    requires PlainParams(src.params) && StructurePublic(src) && Anchored(TemplateGaps(src))
    ensures Settle(Mask(src)).Some?
  {
    StructureIsPublic(src);
    AnchoredSettles(TemplateGaps(src), src.params);
  }

  /** When the trace counts no private placeholder in the path, none is there. */
  lemma CountedPathIsFree(src: Source)
    requires PlainParams(src.params) && StructurePublic(src) && PathCountsPublic(src) && HasPath(Mask(src))
    ensures GapFree(Settle(Mask(src)).value.path)
  {
    StructureIsPublic(src);
    PathIsPublic(src);
    PathGuard(TemplateGaps(src), src.params);
  }

  lemma PathIsPublic(src: Source)
    requires PlainParams(src.params) && PathCountsPublic(src)
    ensures PublicOnly(PathGaps(TemplateGaps(src)), src.params)
  {
    TemplateParts(src);
    forall k | k in src.params && !src.params[k].public
      ensures Count(Split(src.template.raw).path, Placeholder(k)) == 0
    {
      assert Trace(src.template.raw, k).inPath == 0;
    }
    PathNamed(TemplateGaps(src), src.params);
    ZeroIsPublic(PathGaps(TemplateGaps(src)), src.params);
  }

  lemma PathNamed(g: Masked, params: map<Text, Value>)
    requires GapsKnown(g, params)
    ensures GapsKnown(PathGaps(g), params)
  {
  }

  lemma CountedQueryIsFree(src: Source)
    requires PlainParams(src.params) && QueryPublic(src)
    ensures GapFree(QueryOf(Mask(src)))
  {
    var g := TemplateGaps(src);
    TemplateParts(src);
    ZeroIsPublic(QueryOf(g), src.params);
    QueryExpands(g, src.params);
    ExpandPublic(QueryOf(g), src.params);
  }

  lemma QueryExpands(g: Masked, params: map<Text, Value>)
    ensures QueryOf(Expand(g, params)) == Expand(QueryOf(g), params)
  {
    DelimitersAvoided(params);
    ExpandStop(g, params, "?#");
    var tail := g[Stop(g, "?#")..];
    if tail != [] {
      ExpandKnown(tail, params);
      ExpandStop(tail[1..], params, "#");
    }
  }
}
