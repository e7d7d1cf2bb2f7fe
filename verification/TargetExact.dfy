/** What private path parameters can change about a resolved target, exactly: the
    shape of the URL and whether it is accepted, the path, and the query names
    that Prepare shows. */
module TargetExact {
  import opened Base
  import opened Headers
  import opened Sorting
  import opened PathTemplate
  import opened Masking
  import opened Percent
  import opened Legibility
  import opened QueryNames
  import opened TargetTrace

  /** A run on the same template and public values, in some iteration order. */
  ghost predicate RunOf(src: Source, run: Source, order: seq<Text>) {
    && run.template == src.template
    && SameButSecrets(src.params, run.params)
    && Lists(order, Raws(run.params))
  }

  predicate Regular(src: Source) {
    PlainParams(src.params) && Flat(Lex(src.template.raw))
  }

  /** No private value in the query brings an ampersand. */
  predicate NoAmpersand(run: Source) {
    var q := QueryOf(Mask(run));
    forall i :: 0 <= i < |q| && q[i].Gap? && q[i].name in run.params ==> '&' !in run.params[q[i].name].raw
  }

  /** A run fills the one mask that its public data determine. */
  lemma RunFills(src: Source, run: Source, order: seq<Text>)
    requires Regular(src) && RunOf(src, run, order)
    ensures Mask(run) == Mask(src) && Resolved(run, order) == Fill(Mask(src), Values(run.params))
    ensures Properly(Mask(src), Values(run.params)) && Fits(Mask(src), Values(run.params), "/?#")
  {
    SameExpansion(TemplateGaps(src), src.params, run.params);
    ResolvedIsFilled(run, order);
    ValuesProper(Mask(src), run.params);
    ValuesFit(Mask(src), run.params);
  }

  lemma ListedOrder(params: map<Text, Value>)
    ensures Lists(SortedKeys(params.Keys), Raws(params))
  {
    SortedKeysMeaning(params.Keys);
    var keys := SortedKeys(params.Keys);
    assert forall i :: 0 <= i < |keys| ==> keys[i] in keys;
  }

  /** The run in which every private value is one of a few plain texts. */
  lemma PlainRun(src: Source, x: Text) returns (run: Source, order: seq<Text>)
    requires Regular(src) && x in PLAIN_TEXTS
    ensures RunOf(src, run, order) && Resolved(run, order) == Fill(Mask(src), Always(x)) && NoAmpersand(run)
  {
    run := src.(params := WithSecret(src.params, x));
    order := SortedKeys(run.params.Keys);
    ListedOrder(run.params);
    VerbatimTexts(x);
    SecretRun(src, x, order);
    PlainNoAmpersand(src, x);
  }

  lemma PlainNoAmpersand(src: Source, x: Text)
    requires x in PLAIN_TEXTS
    ensures NoAmpersand(src.(params := WithSecret(src.params, x)))
  {
    MaskGaps(src.(params := WithSecret(src.params, x)));
    assert '&' !in x;
  }

  // -------------------------------------------------------------------- the URL

  /** Scheme, authority and kind of the URL are the same in all runs exactly for
      settled targets. */
  lemma ShapeExactly(src: Source)
    requires Regular(src)
    ensures Settle(Mask(src)).Some? <==>
            forall a, one, b, two :: RunOf(src, a, one) && RunOf(src, b, two) ==>
              ShapeOf(Resolved(a, one)) == ShapeOf(Resolved(b, two))
  {
    if Settle(Mask(src)).Some? {
      forall a, one, b, two | RunOf(src, a, one) && RunOf(src, b, two)
        ensures ShapeOf(Resolved(a, one)) == ShapeOf(Resolved(b, two))
      {
        RunFills(src, a, one);
        RunFills(src, b, two);
        SettleSound(Mask(src), Values(a.params));
        SettleSound(Mask(src), Values(b.params));
      }
    } else {
      var x, y := SettleExact(Mask(src));
      var a, one := PlainRun(src, x);
      var b, two := PlainRun(src, y);
    }
  }

  /** The same shape, and both accepted or both refused. */
  predicate ParsedAlike(x: Text, y: Text) {
    ShapeOf(x) == ShapeOf(y) && Accepted(x) == Accepted(y)
  }

  lemma SettledParses(src: Source, a: Source, one: seq<Text>)
    requires Regular(src) && RunOf(src, a, one) && ParseSettled(Mask(src))
    ensures ShapeOf(Resolved(a, one)) == Settle(Mask(src)).value.shape
    ensures Accepted(Resolved(a, one)) == Accepted(Fill(Mask(src), Always(DIGITS)))
  {
    RunFills(src, a, one);
    SettleSound(Mask(src), Values(a.params));
    ParseSound(Mask(src), Values(a.params));
  }

  /** The URL parses alike in all runs, refusals included, exactly when its shape
      is settled and no private parameter stands inside a percent escape of an
      acceptable userinfo, path or fragment. */
  lemma ParseExactly(src: Source)
    requires Regular(src)
    ensures ParseSettled(Mask(src)) <==>
            forall a, one, b, two :: RunOf(src, a, one) && RunOf(src, b, two) ==>
              ParsedAlike(Resolved(a, one), Resolved(b, two))
  {
    if ParseSettled(Mask(src)) {
      forall a, one, b, two | RunOf(src, a, one) && RunOf(src, b, two)
        ensures ParsedAlike(Resolved(a, one), Resolved(b, two))
      {
        SettledParses(src, a, one);
        SettledParses(src, b, two);
      }
    } else if Settle(Mask(src)).Some? {
      ParseExact(Mask(src));
      var a, one := PlainRun(src, DIGITS);
      var b, two := PlainRun(src, "z");
      assert !ParsedAlike(Resolved(a, one), Resolved(b, two));
    } else {
      var x, y := SettleExact(Mask(src));
      var a, one := PlainRun(src, x);
      var b, two := PlainRun(src, y);
      assert !ParsedAlike(Resolved(a, one), Resolved(b, two));
    }
  }

  // ------------------------------------------------------------------- the path

  lemma PlainFits(s: Masked, x: Text)
    requires x == "a" || x == "b"
    ensures Fits(s, Always(x), "/?#")
  {
  }

  lemma FreePath(src: Source, a: Source, one: seq<Text>)
    requires Regular(src) && RunOf(src, a, one) && Settle(Mask(src)).Some?
    requires Settle(Mask(src)).value.shape != Missing && GapFree(Settle(Mask(src)).value.path)
    ensures PathText(Resolved(a, one)) == Bare(Settle(Mask(src)).value.path)
  {
    RunFills(src, a, one);
    SettleSound(Mask(src), Values(a.params));
    FillGapFree(Settle(Mask(src)).value.path, Values(a.params));
  }

  /** The path of a settled target is the same in all runs exactly when no
      private parameter is in it. */
  lemma PathExactly(src: Source)
    requires Regular(src) && Settle(Mask(src)).Some? && Settle(Mask(src)).value.shape != Missing
    ensures GapFree(Settle(Mask(src)).value.path) <==>
            forall a, one, b, two :: RunOf(src, a, one) && RunOf(src, b, two) ==>
              PathText(Resolved(a, one)) == PathText(Resolved(b, two))
  {
    var s := Mask(src);
    if GapFree(Settle(s).value.path) {
      forall a, one, b, two | RunOf(src, a, one) && RunOf(src, b, two)
        ensures PathText(Resolved(a, one)) == PathText(Resolved(b, two))
      {
        FreePath(src, a, one);
        FreePath(src, b, two);
      }
    } else {
      GapTells(Settle(s).value.path);
      PlainFits(s, "a");
      PlainFits(s, "b");
      SettleSound(s, Always("a"));
      SettleSound(s, Always("b"));
      var a, one := PlainRun(src, "a");
      var b, two := PlainRun(src, "b");
    }
  }

  // ------------------------------------------------------------------ the query

  lemma QueryGaps(s: Masked, v: Text -> Text)
    requires Properly(s, v)
    ensures Properly(QueryOf(s), v)
  {
    var k := Stop(s, "?#");
    ProperTail(s, k, v);
    var tail := s[k..];
    if tail != [] {
      ProperTail(tail, 1, v);
      ProperHead(tail[1..], Stop(tail[1..], "#"), v);
    }
  }

  lemma RunIsMild(src: Source, a: Source, one: seq<Text>)
    requires Regular(src) && RunOf(src, a, one) && NoAmpersand(a)
    ensures Mild(QueryOf(Mask(src)), Values(a.params))
    ensures QueryText(Resolved(a, one)) == Fill(QueryOf(Mask(src)), Values(a.params))
  {
    var q := QueryOf(Mask(src));
    RunFills(src, a, one);
    QuerySound(Mask(src), Values(a.params));
    QueryGaps(Mask(src), Values(a.params));
    forall i | 0 <= i < |q| && q[i].Gap?
      ensures Avoids(Values(a.params)(q[i].name), "&")
    {
      if q[i].name in a.params {
        EscapedAmpersand(a.params[q[i].name].raw);
      }
    }
  }

  lemma SettledNames(src: Source, a: Source, one: seq<Text>)
    requires Regular(src) && RunOf(src, a, one) && NoAmpersand(a) && QuerySettled(QueryOf(Mask(src)))
    ensures SeenAlike(QueryText(Resolved(a, one)), Fill(QueryOf(Mask(src)), Always(DIGITS)))
  {
    RunIsMild(src, a, one);
    XIsMild(QueryOf(Mask(src)));
    QuerySettledSound(QueryOf(Mask(src)), Values(a.params), Always(DIGITS));
  }

  lemma SeenTransitive(x: Text, y: Text, z: Text)
    requires SeenAlike(x, z) && SeenAlike(y, z)
    ensures SeenAlike(x, y)
  {
  }

  /** Whatever private values without ampersands are, Prepare shows the same query
      names with the same multiplicities exactly when the query cannot parse, or
      no private parameter is in a name or inside a percent escape. */
  lemma NamesExactly(src: Source)
    requires Regular(src)
    ensures QuerySettled(QueryOf(Mask(src))) <==>
            forall a, one, b, two :: RunOf(src, a, one) && RunOf(src, b, two) && NoAmpersand(a) && NoAmpersand(b) ==>
              SeenAlike(QueryText(Resolved(a, one)), QueryText(Resolved(b, two)))
  {
    var q := QueryOf(Mask(src));
    if QuerySettled(q) {
      forall a, one, b, two | RunOf(src, a, one) && RunOf(src, b, two) && NoAmpersand(a) && NoAmpersand(b)
        ensures SeenAlike(QueryText(Resolved(a, one)), QueryText(Resolved(b, two)))
      {
        SettledNames(src, a, one);
        SettledNames(src, b, two);
        SeenTransitive(QueryText(Resolved(a, one)), QueryText(Resolved(b, two)), Fill(q, Always(DIGITS)));
      }
    } else {
      var x, y := QuerySettledExact(q);
      PlainQuery(src, x);
      PlainQuery(src, y);
      var a, one := PlainRun(src, x);
      var b, two := PlainRun(src, y);
      assert !SeenAlike(QueryText(Resolved(a, one)), QueryText(Resolved(b, two)));
    }
  }

  lemma PlainQuery(src: Source, x: Text)
    requires x in {"", "x", "z", "41"}
    ensures QueryText(Fill(Mask(src), Always(x))) == Fill(QueryOf(Mask(src)), Always(x))
  {
    XIsMild(Mask(src));
    ProperFits(Mask(src), Always(x));
    QuerySound(Mask(src), Always(x));
  }
}
