/** The request target: a template with tagged parameters, the text it resolves
    to, and the trace of where its parameters went (request_plan.go,
    request_metadata.go). */
module TargetTrace {
  import opened Base
  import opened Headers
  import opened PathTemplate
  import opened UrlTrace
  import opened Masking
  import opened Percent
  import Escaping

  datatype Source = Source(template: Value, params: map<Text, Value>)

  function Raws(params: map<Text, Value>): map<Text, Text> {
    map k | k in params :: params[k].raw
  }

  /** resolvedPath. */
  function Resolved(src: Source, order: seq<Text>): Text
    requires forall i :: 0 <= i < |order| ==> order[i] in src.params
  {
    Resolve(src.template.raw, Raws(src.params), order)
  }

  // ----------------------------------------------------- templates with gaps

  function Knowns(x: Text): Masked {
    seq(|x|, i requires 0 <= i < |x| => Known(x[i]))
  }

  function GapToken(t: Token, names: set<Text>): Masked {
    if t.Hole? && t.name in names then [Gap(t.name)] else Knowns(RenderToken(t))
  }

  /** The template with a gap for every placeholder of a parameter. */
  function Gaps(ts: seq<Token>, names: set<Text>): Masked {
    if ts == [] then [] else GapToken(ts[0], names) + Gaps(ts[1..], names)
  }

  function ExpandPiece(p: Piece, params: map<Text, Value>): Masked {
    if p.Gap? && p.name in params && params[p.name].public then Knowns(PathEscape(params[p.name].raw)) else [p]
  }

  /** The text with its public gaps filled. */
  function Expand(g: Masked, params: map<Text, Value>): Masked {
    if g == [] then [] else ExpandPiece(g[0], params) + Expand(g[1..], params)
  }

  function TemplateGaps(src: Source): Masked {
    Gaps(Lex(src.template.raw), src.params.Keys)
  }

  /** What is public about the resolved text. */
  function Mask(src: Source): Masked {
    Expand(TemplateGaps(src), src.params)
  }

  /** The escaped value of each parameter. */
  function Values(params: map<Text, Value>): Text -> Text {
    (name: Text) => if name in params then PathEscape(params[name].raw) else []
  }

  function Braced(): Text -> Text {
    (name: Text) => Placeholder(name)
  }

  lemma {:induction false} FillKnowns(x: Text, v: Text -> Text)
    ensures Fill(Knowns(x), v) == x
  {
    if x == [] {
    } else {
      assert Knowns(x)[1..] == Knowns(x[1..]);
      FillKnowns(x[1..], v);
      assert x == [x[0]] + x[1..];
    }
  }

  lemma FillOne(p: Piece, v: Text -> Text)
    ensures Fill([p], v) == FillPiece(p, v)
  {
    assert [p][1..] == [];
    assert FillPiece(p, v) + [] == FillPiece(p, v);
  }

  /** Filled with the placeholders themselves, the gaps give the template back. */
  lemma {:induction false} TemplateFilled(ts: seq<Token>, names: set<Text>)
    ensures Fill(Gaps(ts, names), Braced()) == Render(ts)
  {
    if ts == [] {
    } else {
      TemplateFilled(ts[1..], names);
      FillConcat(GapToken(ts[0], names), Gaps(ts[1..], names), Braced());
      if ts[0].Hole? && ts[0].name in names {
        FillOne(Gap(ts[0].name), Braced());
      } else {
        FillKnowns(RenderToken(ts[0]), Braced());
      }
    }
  }

  /** Filled with the values, they give the simultaneous substitution. */
  lemma {:induction false} ValuesFilled(ts: seq<Token>, params: map<Text, Value>)
    ensures Fill(Gaps(ts, params.Keys), Values(params)) == Render(Subst(ts, Escaped(Raws(params))))
  {
    if ts == [] {
    } else {
      var t, m, v := ts[0], Escaped(Raws(params)), Values(params);
      ValuesFilled(ts[1..], params);
      FillConcat(GapToken(t, params.Keys), Gaps(ts[1..], params.Keys), v);
      RenderConcat(SubstToken(t, m), Subst(ts[1..], m));
      if t.Hole? && t.name in params {
        FillOne(Gap(t.name), v);
        RenderLits(m[t.name]);
      } else {
        FillKnowns(RenderToken(t), v);
        assert [t][1..] == [] && RenderToken(t) + [] == RenderToken(t);
      }
    }
  }

  lemma {:induction false} ExpandFilled(g: Masked, params: map<Text, Value>)
    ensures Fill(Expand(g, params), Values(params)) == Fill(g, Values(params))
  {
    if g == [] {
    } else {
      var p, v := g[0], Values(params);
      ExpandFilled(g[1..], params);
      FillConcat(ExpandPiece(p, params), Expand(g[1..], params), v);
      if p.Gap? && p.name in params && params[p.name].public {
        FillKnowns(PathEscape(params[p.name].raw), v);
      } else {
        FillOne(p, v);
      }
    }
  }

  predicate PlainParams(params: map<Text, Value>) {
    forall k :: k in params ==> BraceFree(k) && NoDelimiter(k)
  }

  /** The resolved text of a flat template, for every iteration order. */
  lemma ResolvedIsFilled(src: Source, order: seq<Text>)
    requires Lists(order, Raws(src.params)) && PlainParams(src.params) && Flat(Lex(src.template.raw))
    ensures Resolved(src, order) == Fill(Mask(src), Values(src.params))
  {
    OrderIndependent(src.template.raw, Raws(src.params), order);
    ValuesFilled(Lex(src.template.raw), src.params);
    ExpandFilled(TemplateGaps(src), src.params);
  }

  lemma {:induction false} EscapedFits(x: Text)
    ensures Avoids(PathEscape(x), "/?#")
  {
    if x == [] {
    } else {
      EscapedFits(x[1..]);
      var head := if PathSafe(x[0]) then [x[0]]
                  else ['%', Escaping.HexDigit(x[0] as int / 16), Escaping.HexDigit(x[0] as int % 16)];
      AvoidsConcat(head, PathEscape(x[1..]), "/?#");
    }
  }

  lemma ValuesProper(s: Masked, params: map<Text, Value>)
    ensures Properly(s, Values(params))
  {
    forall i | 0 <= i < |s| && s[i].Gap?
      ensures Proper(Values(params)(s[i].name))
    {
      if s[i].name in params {
        EscapedIsProper(params[s[i].name].raw);
      }
    }
  }

  /** Escaping leaves an ampersand alone and makes none. */
  lemma {:induction false} EscapedAmpersand(x: Text)
    ensures Avoids(PathEscape(x), "&") <==> '&' !in x
  {
    assert '&' in "&";
    if x == [] {
    } else {
      var c := x[0];
      var head := if PathSafe(c) then [c] else ['%', Escaping.HexDigit(c as int / 16), Escaping.HexDigit(c as int % 16)];
      EscapedAmpersand(x[1..]);
      AvoidsEither(head, PathEscape(x[1..]), "&");
      assert Avoids(head, "&") <==> c != '&';
      assert x == [c] + x[1..];
    }
  }

  lemma AvoidsEither(a: Text, b: Text, stops: Text)
    ensures Avoids(a + b, stops) <==> Avoids(a, stops) && Avoids(b, stops)
  {
    assert forall i :: 0 <= i < |a| ==> (a + b)[i] == a[i];
    assert forall i :: 0 <= i < |b| ==> (a + b)[|a| + i] == b[i];
  }

  lemma ValuesFit(s: Masked, params: map<Text, Value>)
    ensures Fits(s, Values(params), "/?#")
  {
    forall i | 0 <= i < |s| && s[i].Gap?
      ensures Avoids(Values(params)(s[i].name), "/?#")
    {
      if s[i].name in params {
        EscapedFits(params[s[i].name].raw);
      }
    }
  }

  // --------------------------------------------------- two runs, one template

  /** The same parameters up to the private values. */
  predicate SameButSecrets(p: map<Text, Value>, q: map<Text, Value>) {
    p.Keys == q.Keys && forall k :: k in p ==> p[k].public == q[k].public && (p[k].public ==> p[k] == q[k])
  }

  lemma {:induction false} SameExpansion(g: Masked, p: map<Text, Value>, q: map<Text, Value>)
    requires SameButSecrets(p, q)
    ensures Expand(g, p) == Expand(g, q)
  {
    if g == [] {
    } else {
      SameExpansion(g[1..], p, q);
      assert ExpandPiece(g[0], p) == ExpandPiece(g[0], q);
    }
  }

  // ------------------------------------------------------- settling is exact

  /** The parameters with one private value everywhere. */
  function WithSecret(params: map<Text, Value>, x: Text): map<Text, Value> {
    map k | k in params :: if params[k].public then params[k] else Value(x, false)
  }

  lemma {:induction false} FillAlike(s: Masked, v: Text -> Text, w: Text -> Text)
    requires forall i :: 0 <= i < |s| && s[i].Gap? ==> v(s[i].name) == w(s[i].name)
    ensures Fill(s, v) == Fill(s, w)
  {
    if s == [] {
    } else {
      FillAlike(s[1..], v, w);
    }
  }

  /** The gaps of a mask are private parameters. */
  predicate PrivateGaps(s: Masked, params: map<Text, Value>) {
    forall i :: 0 <= i < |s| && s[i].Gap? ==> s[i].name in params && !params[s[i].name].public
  }

  lemma {:induction false} GapsNamed(ts: seq<Token>, names: set<Text>)
    ensures forall i :: 0 <= i < |Gaps(ts, names)| && Gaps(ts, names)[i].Gap? ==> Gaps(ts, names)[i].name in names
  {
    if ts == [] {
    } else {
      GapsNamed(ts[1..], names);
    }
  }

  lemma {:induction false} ExpandGaps(g: Masked, params: map<Text, Value>)
    requires forall i :: 0 <= i < |g| && g[i].Gap? ==> g[i].name in params
    ensures PrivateGaps(Expand(g, params), params)
  {
    if g == [] {
    } else {
      ExpandGaps(g[1..], params);
    }
  }

  lemma MaskGaps(src: Source)
    ensures PrivateGaps(Mask(src), src.params)
  {
    GapsNamed(Lex(src.template.raw), src.params.Keys);
    ExpandGaps(TemplateGaps(src), src.params);
  }

  predicate Verbatim(x: Text) {
    PathEscape(x) == x
  }

  /** A run whose private values are all one text that escaping leaves alone. */
  lemma SecretRun(src: Source, x: Text, order: seq<Text>)
    requires PlainParams(src.params) && Flat(Lex(src.template.raw)) && Verbatim(x)
    requires Lists(order, Raws(WithSecret(src.params, x)))
    ensures SameButSecrets(src.params, WithSecret(src.params, x))
    ensures Resolved(src.(params := WithSecret(src.params, x)), order) == Fill(Mask(src), Always(x))
  {
    var other := src.(params := WithSecret(src.params, x));
    SameExpansion(TemplateGaps(src), src.params, other.params);
    ResolvedIsFilled(other, order);
    MaskGaps(src);
    FillAlike(Mask(src), Values(other.params), Always(x));
  }

  /** The texts that tell runs apart. */
  const PLAIN_TEXTS: set<Text> := {"", "a", "b", "a:", "b:", "x", "z", DIGITS}

  lemma VerbatimTexts(x: Text)
    requires x in PLAIN_TEXTS
    ensures Verbatim(x)
  {
    assert PathEscape("a") == "a" && PathEscape("b") == "b" && PathEscape("x") == "x" && PathEscape("z") == "z";
    assert DIGITS[1..] == "1" && PathEscape("1") == "1" && PathEscape(DIGITS) == DIGITS;
    assert "a:"[1..] == ":" && "b:"[1..] == ":" && PathEscape(":") == ":";
  }
}
