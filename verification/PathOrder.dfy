/** The condition for order independence is exact: a template that is not flat
    has parameters for which two iteration orders give different paths. */
module PathOrder {
  import opened Base
  import opened Sorting
  import opened PathTemplate

  /** No opening brace of a lexed template starts a placeholder as it stands. */
  predicate Tight(ts: seq<Token>) {
    ts == [] || (Tight(ts[1..]) && (ts[0].Open? ==> !PlainThenClose(ts[1..])))
  }

  lemma {:induction false} PlainThenCloseBrace(s: Text)
    requires PlainThenClose(Lex(s))
    ensures FirstBrace(s) < |s| && s[FirstBrace(s)] == '}'
    decreases |s|
  {
    var rest := s[|RenderToken(NextToken(s))|..];
    assert Lex(s)[1..] == Lex(rest);
    if s[0] != '}' {
      PlainThenCloseBrace(rest);
    }
  }

  lemma {:induction false} LexTight(s: Text)
    ensures Tight(Lex(s))
    decreases |s|
  {
    if s == [] {
    } else {
      var rest := s[|RenderToken(NextToken(s))|..];
      LexTight(rest);
      assert Lex(s)[1..] == Lex(rest);
      if NextToken(s).Open? && PlainThenClose(Lex(rest)) {
        PlainThenCloseBrace(rest);
      }
    }
  }

  // ------------------------------------------------------- the counterexample

  /** A filler longer than every name in the template, and equal to its escape. */
  function Filler(n: nat): Text {
    if n == 0 then [] else ['a'] + Filler(n - 1)
  }

  lemma {:induction false} FillerPlain(n: nat)
    ensures |Filler(n)| == n && BraceFree(Filler(n)) && PathEscape(Filler(n)) == Filler(n)
    ensures forall i :: 0 <= i < n ==> Filler(n)[i] == 'a'
  {
    if n == 0 {
    } else {
      FillerPlain(n - 1);
      assert Filler(n)[1..] == Filler(n - 1);
    }
  }

  function HoleNames(ts: seq<Token>): set<Text> {
    if ts == [] then {} else (if ts[0].Hole? then {ts[0].name} else {}) + HoleNames(ts[1..])
  }

  lemma {:induction false} HoleNamesShort(ts: seq<Token>, name: Text)
    requires WellFormed(ts) && name in HoleNames(ts)
    ensures |name| < |Render(ts)| && BraceFree(name)
  {
    if name in HoleNames(ts[1..]) {
      HoleNamesShort(ts[1..], name);
    }
  }

  /** The text up to the closing brace once every hole holds the filler. */
  function Inner(ts: seq<Token>, x: Text): Text
    requires ClosesFirst(ts)
  {
    match ts[0]
    case Close => []
    case Lit(c) => [c] + Inner(ts[1..], x)
    case _ => x + Inner(ts[1..], x)
  }

  ghost predicate AllFilled(m: map<Text, Text>, x: Text) {
    forall k :: k in m ==> m[k] == x
  }

  lemma {:induction false} InnerAppears(ts: seq<Token>, m: map<Text, Text>, x: Text)
    requires WellFormed(ts) && ClosesFirst(ts) && BraceFree(x)
    requires AllFilled(m, x) && HoleNames(ts) <= m.Keys
    ensures BraceFree(Inner(ts, x))
    ensures Inner(ts, x) + ['}'] <= Render(Subst(ts, m))
  {
    var rest := Subst(ts[1..], m);
    RenderFirst(ts, m, x);
    if !ts[0].Close? {
      InnerAppears(ts[1..], m, x);
      var head := if ts[0].Lit? then [ts[0].c] else x;
      ConcatAssociates(head, Inner(ts[1..], x), ['}']);
      PrefixCons(head, Inner(ts[1..], x) + ['}'], Render(rest));
    }
  }

  /** What the first token contributes once the holes are filled. */
  lemma RenderFirst(ts: seq<Token>, m: map<Text, Text>, x: Text)
    requires ts != [] && AllFilled(m, x)
    ensures Render(Subst(ts, m)) ==
            (if ts[0].Hole? && ts[0].name in m then x else RenderToken(ts[0])) + Render(Subst(ts[1..], m))
  {
    RenderConcat(SubstToken(ts[0], m), Subst(ts[1..], m));
    RenderLits(x);
    var t := ts[0];
    assert Render([t]) == RenderToken(t) by { assert [t][1..] == []; assert RenderToken(t) + [] == RenderToken(t); }
  }

  lemma PrefixCons(a: Text, b: Text, c: Text)
    requires b <= c
    ensures a + b <= a + c
  {
    assert c == b + c[|b|..];
    ConcatAssociates(a, b, c[|b|..]);
  }

  lemma {:induction false} InnerLong(ts: seq<Token>, x: Text)
    requires ClosesFirst(ts) && !PlainThenClose(ts)
    ensures |Inner(ts, x)| >= |x|
  {
    if ts[0].Lit? {
      InnerLong(ts[1..], x);
    }
  }

  /** A name that ends at a closing brace spans a whole filler, or no hole. */
  lemma {:induction false} NameSpansFiller(ts: seq<Token>, m: map<Text, Text>, x: Text, name: Text)
    requires WellFormed(ts) && AllFilled(m, x) && BraceFree(x) && BraceFree(name)
    requires name + ['}'] <= Render(Subst(ts, m)) && !PlainThenClose(ts)
    ensures |name| >= |x|
  {
    var w, r := name + ['}'], Render(Subst(ts, m));
    assert ts != [];
    var rest := Subst(ts[1..], m);
    RenderFirst(ts, m, x);
    if ts[0].Hole? && ts[0].name in m {
      assert r == x + Render(rest);
      FirstBraceBeyond(x, Render(rest));
      assert r == name + (['}'] + r[|w|..]) by {
        assert r == w + r[|w|..];
        ConcatAssociates(name, ['}'], r[|w|..]);
      }
      FirstBraceAfter(name, r[|w|..]);
    } else {
      var head := RenderToken(ts[0]);
      assert r[0] == head[0] && w[0] == r[0];
      if ts[0].Lit? {
        assert name != [] && r[1..] == Render(rest);
        assert w[1..] == name[1..] + ['}'];
        assert w == r[..|w|];
        assert name[1..] + ['}'] == Render(rest)[..|name|];
        NameSpansFiller(ts[1..], m, x, name[1..]);
      }
    }
  }

  lemma FirstBraceBeyond(x: Text, rest: Text)
    requires BraceFree(x)
    ensures FirstBrace(x + rest) >= |x|
  {
    var i := FirstBrace(x + rest);
    assert forall j :: 0 <= j < |x| ==> (x + rest)[j] == x[j];
  }

  lemma {:induction false} ShortUnmatched(ts: seq<Token>, m: map<Text, Text>, x: Text, name: Text)
    requires WellFormed(ts) && Tight(ts) && AllFilled(m, x) && BraceFree(x) && BraceFree(name) && |name| < |x|
    ensures Unmatched(Subst(ts, m), name)
  {
    if ts == [] {
    } else {
      ShortUnmatched(ts[1..], m, x, name);
      var rest := Subst(ts[1..], m);
      if ts[0].Hole? && ts[0].name in m {
        LitsUnmatched(x, rest, name);
      } else {
        assert ([ts[0]] + rest)[1..] == rest;
        if ts[0].Open? && name + ['}'] <= Render(rest) {
          NameSpansFiller(ts[1..], m, x, name);
        }
      }
    }
  }

  lemma {:induction false} LitsUnmatched(v: Text, ts: seq<Token>, name: Text)
    ensures Unmatched(Lits(v) + ts, name) <==> Unmatched(ts, name)
  {
    if v == [] {
      assert Lits(v) + ts == ts;
    } else {
      assert (Lits(v) + ts)[1..] == Lits(v[1..]) + ts;
      LitsUnmatched(v[1..], ts, name);
    }
  }

  // -------------------------------------------------------------- the theorem

  lemma {:induction false} Shrinks(s: Text, w: Text, i: nat)
    requires w != [] && i <= |s| && w <= s[i..]
    ensures |ReplaceAll(s, w, [])| < |s|
    decreases |s|
  {
    ReplaceLength(s[|w|..], w);
    if !(w <= s) {
      assert s[1..][i - 1..] == s[i..];
      Shrinks(s[1..], w, i - 1);
    }
  }

  lemma {:induction false} ReplaceLength(s: Text, w: Text)
    requires w != []
    ensures |ReplaceAll(s, w, [])| <= |s|
    decreases |s|
  {
    if s == [] {
    } else {
      if w <= s {
        ReplaceLength(s[|w|..], w);
      } else {
        ReplaceLength(s[1..], w);
      }
    }
  }

  /** Filling the holes one after another, in any template that was lexed. */
  lemma {:induction false} FillHoles(ts: seq<Token>, m: map<Text, Text>, params: map<Text, Text>, x: Text, order: seq<Text>)
    requires WellFormed(ts) && Tight(ts) && BraceFree(x) && PathEscape(x) == x && AllFilled(m, x)
    requires Distinct(order) && forall i :: 0 <= i < |order| ==>
               order[i] in params && params[order[i]] == x && order[i] !in m && BraceFree(order[i]) && |order[i]| < |x|
    ensures Resolve(Render(Subst(ts, m)), params, order) == Render(Subst(ts, Extend(m, params, order)))
    ensures AllFilled(Extend(m, params, order), x)
    decreases |order|
  {
    if order == [] {
    } else {
      var name := order[0];
      SubstKeeps(ts, m);
      ShortUnmatched(ts, m, x, name);
      ReplaceIsSubst(Subst(ts, m), name, x);
      SubstThen(ts, m, name, x);
      FillHoles(ts, m[name := x], params, x, order[1..]);
    }
  }

  lemma {:induction false} NotFlatAt(ts: seq<Token>) returns (p: nat)
    requires !Flat(ts)
    ensures p < |ts| && ts[p].Open? && ClosesFirst(ts[p + 1..])
    decreases |ts|
  {
    if ts[0].Open? && ClosesFirst(ts[1..]) {
      p := 0;
    } else {
      p := NotFlatAt(ts[1..]);
      assert ts[1..][p + 1..] == ts[p + 2..];
      p := p + 1;
    }
  }

  lemma {:induction false} TightAt(ts: seq<Token>, p: nat)
    requires Tight(ts) && p < |ts| && ts[p].Open?
    ensures !PlainThenClose(ts[p + 1..])
  {
    if p == 0 {
    } else {
      TightAt(ts[1..], p - 1);
      assert ts[1..][p..] == ts[p + 1..];
    }
  }

  lemma {:induction false} HolesOfSuffix(ts: seq<Token>, p: nat)
    requires p <= |ts|
    ensures HoleNames(ts[p..]) <= HoleNames(ts)
  {
    if p == 0 {
    } else {
      HolesOfSuffix(ts[1..], p - 1);
      assert ts[1..][p - 1..] == ts[p..];
    }
  }

  /** The completed placeholder is there once the holes are filled. */
  lemma PlaceholderAppears(ts: seq<Token>, p: nat, m: map<Text, Text>, x: Text) returns (i: nat)
    requires WellFormed(ts) && p < |ts| && ts[p].Open? && ClosesFirst(ts[p + 1..])
    requires AllFilled(m, x) && BraceFree(x) && HoleNames(ts) <= m.Keys
    ensures i <= |Render(Subst(ts, m))|
    ensures Placeholder(Inner(ts[p + 1..], x)) <= Render(Subst(ts, m))[i..]
  {
    var b := ts[p + 1..];
    RenderAround(ts, p, m, x);
    i := |Render(Subst(ts[..p], m))|;
    HolesOfSuffix(ts, p + 1);
    InnerAppears(b, m, x);
    var w := Inner(b, x);
    PrefixCons(['{'], w + ['}'], Render(Subst(b, m)));
    ConcatAssociates(['{'], w, ['}']);
    DropPrefix(Render(Subst(ts[..p], m)), ['{'] + Render(Subst(b, m)));
  }

  lemma DropPrefix(a: Text, b: Text)
    ensures (a + b)[|a|..] == b
  {
  }

  /** The text around an opening brace that no hole contains. */
  lemma RenderAround(ts: seq<Token>, p: nat, m: map<Text, Text>, x: Text)
    requires p < |ts| && ts[p].Open? && AllFilled(m, x)
    ensures Render(Subst(ts, m)) == Render(Subst(ts[..p], m)) + (['{'] + Render(Subst(ts[p + 1..], m)))
  {
    assert ts == ts[..p] + ts[p..] && ts[p..][1..] == ts[p + 1..];
    SubstConcat(ts[..p], ts[p..], m);
    RenderConcat(Subst(ts[..p], m), Subst(ts[p..], m));
    RenderFirst(ts[p..], m, x);
  }

  /** The parameters that tell two orders apart: every hole gets the filler, and
      the placeholder they complete is a parameter too. */
  function Witness(ts: seq<Token>, x: Text, w: Text): map<Text, Text> {
    (map h | h in HoleNames(ts) :: x)[w := []]
  }

  lemma HolesListed(path: Text)
    ensures
      var ts, holes := Lex(path), SortedKeys(HoleNames(Lex(path)));
      && Distinct(holes)
      && (forall h :: h in HoleNames(ts) <==> h in holes)
      && (forall h :: h in holes ==> BraceFree(h) && |h| < |path|)
  {
    var ts := Lex(path);
    RenderLex(path);
    SortedKeysMeaning(HoleNames(ts));
    forall h | h in HoleNames(ts)
      ensures |h| < |path| && BraceFree(h)
    {
      HoleNamesShort(ts, h);
    }
  }

  function Filled(ts: seq<Token>, x: Text): map<Text, Text> {
    map h | h in HoleNames(ts) :: x
  }

  lemma FilledIsExtend(ts: seq<Token>, params: map<Text, Text>, x: Text, holes: seq<Text>)
    requires forall h :: h in holes ==> h in params && params[h] == x
    requires forall i :: 0 <= i < |holes| ==> holes[i] in params
    requires Distinct(holes) && PathEscape(x) == x && forall h :: h in HoleNames(ts) <==> h in holes
    ensures Extend(map[], params, holes) == Filled(ts, x)
  {
    ExtendMeaning(map[], params, holes);
  }

  /** Filling all holes of a path, whatever else the parameters hold. */
  lemma FillPath(path: Text, params: map<Text, Text>, x: Text, holes: seq<Text>)
    requires x == Filler(|path|) && holes == SortedKeys(HoleNames(Lex(path)))
    requires forall h :: h in holes ==> h in params && params[h] == x
    ensures Resolve(path, params, holes) == Render(Subst(Lex(path), Filled(Lex(path), x)))
  {
    var ts := Lex(path);
    RenderLex(path);
    LexTight(path);
    FillerPlain(|path|);
    HolesListed(path);
    SubstNothing(ts);
    assert forall i :: 0 <= i < |holes| ==> holes[i] in holes;
    FillHoles(ts, map[], params, x, holes);
    FilledIsExtend(ts, params, x, holes);
  }

  lemma {:induction false} ResolveSnoc(path: Text, params: map<Text, Text>, order: seq<Text>, last: Text)
    requires last in params && forall i :: 0 <= i < |order| ==> order[i] in params
    ensures Resolve(path, params, order + [last]) ==
            ReplaceAll(Resolve(path, params, order), Placeholder(last), PathEscape(params[last]))
    decreases |order|
  {
    if order == [] {
      assert order + [last] == [last] && [last][1..] == [];
    } else {
      assert (order + [last])[1..] == order[1..] + [last];
      ResolveSnoc(ReplaceAll(path, Placeholder(order[0]), PathEscape(params[order[0]])), params, order[1..], last);
    }
  }

  lemma {:induction false} SubstAbsent(ts: seq<Token>, w: Text, v: Text)
    requires w !in HoleNames(ts)
    ensures Subst(ts, map[w := v]) == ts
  {
    if ts == [] {
    } else {
      SubstAbsent(ts[1..], w, v);
    }
  }

  /** A name that is no hole of the path is not replaced in it. */
  lemma AbsentUntouched(path: Text, w: Text)
    requires BraceFree(w) && w !in HoleNames(Lex(path))
    ensures ReplaceAll(path, Placeholder(w), []) == path
  {
    var ts := Lex(path);
    RenderLex(path);
    LexTight(path);
    TightUnmatched(ts, w);
    ReplaceIsSubst(ts, w, []);
    SubstAbsent(ts, w, []);
  }

  lemma {:induction false} TightUnmatched(ts: seq<Token>, name: Text)
    requires WellFormed(ts) && Tight(ts) && BraceFree(name)
    ensures Unmatched(ts, name)
  {
    if ts == [] {
    } else {
      TightUnmatched(ts[1..], name);
      if ts[0].Open? && name + ['}'] <= Render(ts[1..]) {
        NameNeedsClose(ts[1..], name);
      }
    }
  }

  lemma WitnessOrders(holes: seq<Text>, w: Text, params: map<Text, Text>)
    requires Distinct(holes) && w !in holes
    requires forall k :: k in params <==> k in holes || k == w
    ensures Lists(holes + [w], params) && Lists([w] + holes, params)
  {
  }

  /** A template that is not flat has parameters with plain names for which two
      iteration orders of the map resolve to different paths. */
  lemma OrderMatters(path: Text) returns (params: map<Text, Text>, one: seq<Text>, two: seq<Text>)
    requires !Flat(Lex(path))
    ensures Lists(one, params) && Lists(two, params) && PlainNames(one) && PlainNames(two)
    ensures Resolve(path, params, one) != Resolve(path, params, two)
  {
    var ts := Lex(path);
    RenderLex(path);
    LexTight(path);
    FillerPlain(|path|);
    HolesListed(path);
    var x, holes := Filler(|path|), SortedKeys(HoleNames(ts));
    var p := NotFlatAt(ts);
    TightAt(ts, p);
    var w := Inner(ts[p + 1..], x);
    InnerLong(ts[p + 1..], x);
    var i := PlaceholderAppears(ts, p, Filled(ts, x), x);
    InnerBraceFree(ts, p, x);
    params := Witness(ts, x, w);
    WitnessOrders(holes, w, params);
    one, two := holes + [w], [w] + holes;
    FillPath(path, params, x, holes);
    ResolveSnoc(path, params, holes, w);
    AbsentUntouched(path, w);
    assert two[1..] == holes;
    Shrinks(Render(Subst(ts, Filled(ts, x))), Placeholder(w), i);
  }

  lemma InnerBraceFree(ts: seq<Token>, p: nat, x: Text)
    requires WellFormed(ts) && p < |ts| && ClosesFirst(ts[p + 1..]) && BraceFree(x)
    ensures BraceFree(Inner(ts[p + 1..], x))
  {
    HolesOfSuffix(ts, p + 1);
    InnerAppears(ts[p + 1..], Filled(ts, x), x);
  }

  /** Exactly the flat templates resolve alike under every iteration order. */
  lemma OrderIndependentExactly(path: Text)
    ensures Flat(Lex(path)) <==>
            forall params, one, two :: Lists(one, params) && Lists(two, params) && PlainNames(one) && PlainNames(two) ==>
              Resolve(path, params, one) == Resolve(path, params, two)
  {
    if Flat(Lex(path)) {
      forall params, one, two | Lists(one, params) && Lists(two, params) && PlainNames(one) && PlainNames(two)
        ensures Resolve(path, params, one) == Resolve(path, params, two)
      {
        OrderIndependent(path, params, one);
        OrderIndependent(path, params, two);
      }
    } else {
      var params, one, two := OrderMatters(path);
    }
  }

  /** The template "{{a}}" is not flat. */
  lemma NestedIsNotFlat(path: Text)
    requires path == "{{a}}"
    ensures !Flat(Lex(path))
  {
    var inner: Text := "{a}}";
    LexNested(inner);
    assert path[1..] == inner && FirstBrace(inner) == 0;
    assert NextToken(path) == Open && Lex(path) == [Open] + Lex(inner);
    assert Lex(path)[1..] == [Hole("a"), Close];
    assert [Hole("a"), Close][1..] == [Close];
    assert ClosesFirst([Hole("a"), Close]);
  }

  lemma LexNested(s: Text)
    requires s == "{a}}"
    ensures Lex(s) == [Hole("a"), Close]
  {
    assert s[1..] == "a}}" && FirstBrace("a}}") == 1 && s[1..2] == "a";
    assert NextToken(s) == Hole("a") && |Placeholder("a")| == 3;
    assert s[3..] == "}" && "}"[1..] == [];
    assert Lex("}") == [Close];
  }
}
