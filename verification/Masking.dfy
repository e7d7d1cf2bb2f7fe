/** URL text with gaps whose contents are not known. `Settle` says what a parser
    can tell about such a text whatever the gaps hold, and this is exact: when it
    tells nothing, two fillings parse differently. */
module Masking {
  import opened Base
  import opened UrlTrace

  datatype Piece = Known(c: Byte) | Gap(name: Text)

  type Masked = seq<Piece>

  function FillPiece(p: Piece, v: Text -> Text): Text {
    match p
    case Known(c) => [c]
    case Gap(name) => v(name)
  }

  function Fill(s: Masked, v: Text -> Text): Text {
    if s == [] then [] else FillPiece(s[0], v) + Fill(s[1..], v)
  }

  function Always(x: Text): Text -> Text {
    (name: Text) => x
  }

  /** The text with its gaps left empty. */
  function Bare(s: Masked): Text {
    Fill(s, Always([]))
  }

  predicate GapFree(s: Masked) {
    forall i :: 0 <= i < |s| ==> s[i].Known?
  }

  predicate Avoids(x: Text, stops: Text) {
    forall i :: 0 <= i < |x| ==> x[i] !in stops
  }

  /** No filled gap holds one of the bytes. */
  predicate Fits(s: Masked, v: Text -> Text, stops: Text) {
    forall i :: 0 <= i < |s| && s[i].Gap? ==> Avoids(v(s[i].name), stops)
  }

  /** Position of the first known byte of a kind, gaps passed over. */
  function Stop(s: Masked, stops: Text): (i: nat)
    ensures i <= |s| && (i < |s| ==> s[i].Known? && s[i].c in stops)
    ensures forall j :: 0 <= j < i ==> s[j].Known? ==> s[j].c !in stops
  {
    if s == [] || (s[0].Known? && s[0].c in stops) then 0 else 1 + Stop(s[1..], stops)
  }

  // ------------------------------------------------------------ filling parts

  lemma {:induction false} FillConcat(a: Masked, b: Masked, v: Text -> Text)
    ensures Fill(a + b, v) == Fill(a, v) + Fill(b, v)
  {
    if a == [] {
      assert a + b == b;
    } else {
      assert (a + b)[1..] == a[1..] + b;
      FillConcat(a[1..], b, v);
      ConcatAssociates(FillPiece(a[0], v), Fill(a[1..], v), Fill(b, v));
    }
  }

  lemma FillSplit(s: Masked, i: nat, v: Text -> Text)
    requires i <= |s|
    ensures Fill(s, v) == Fill(s[..i], v) + Fill(s[i..], v)
  {
    assert s == s[..i] + s[i..];
    FillConcat(s[..i], s[i..], v);
  }

  lemma FillHead(s: Masked, v: Text -> Text)
    requires s != [] && s[0].Known?
    ensures Fill(s, v) != [] && Fill(s, v)[0] == s[0].c && Fill(s, v)[1..] == Fill(s[1..], v)
  {
  }

  /** A text without gaps is the same under every filling. */
  lemma {:induction false} FillGapFree(s: Masked, v: Text -> Text)
    requires GapFree(s)
    ensures Fill(s, v) == Bare(s) && |Fill(s, v)| == |s|
    ensures forall i :: 0 <= i < |s| ==> Fill(s, v)[i] == s[i].c
  {
    if s == [] {
    } else {
      FillGapFree(s[1..], v);
    }
  }

  lemma {:induction false} FillAvoids(s: Masked, v: Text -> Text, stops: Text)
    requires Fits(s, v, stops) && forall i :: 0 <= i < |s| && s[i].Known? ==> s[i].c !in stops
    ensures Avoids(Fill(s, v), stops)
  {
    if s == [] {
    } else {
      FillAvoids(s[1..], v, stops);
      AvoidsConcat(FillPiece(s[0], v), Fill(s[1..], v), stops);
    }
  }

  lemma AvoidsConcat(a: Text, b: Text, stops: Text)
    requires Avoids(a, stops) && Avoids(b, stops)
    ensures Avoids(a + b, stops)
  {
  }

  lemma IndexAnyAt(a: Text, b: Text, stops: Text)
    requires Avoids(a, stops) && (b == [] || b[0] in stops)
    ensures IndexAny(a + b, stops) == |a| && (a + b)[..|a|] == a && (a + b)[|a|..] == b
  {
    assert forall j :: 0 <= j < |a| ==> (a + b)[j] == a[j];
    assert b != [] ==> (a + b)[|a|] == b[0];
  }

  /** Cutting the filled text at a byte cuts the masked text at its first one. */
  lemma FillStop(s: Masked, stops: Text, v: Text -> Text)
    requires Fits(s, v, stops)
    ensures
      var i, x := Stop(s, stops), Fill(s, v);
      && x[..IndexAny(x, stops)] == Fill(s[..i], v)
      && x[IndexAny(x, stops)..] == Fill(s[i..], v)
  {
    var i := Stop(s, stops);
    FillSplit(s, i, v);
    assert Fits(s[..i], v, stops);
    FillAvoids(s[..i], v, stops);
    if i < |s| {
      FillHead(s[i..], v);
    }
    IndexAnyAt(Fill(s[..i], v), Fill(s[i..], v), stops);
  }

  // ------------------------------------------------------------------- shapes

  predicate Slash(x: Text) {
    x != [] && x[0] == '/'
  }

  predicate TwoSlash(x: Text) {
    |x| >= 2 && x[0] == '/' && x[1] == '/'
  }

  lemma SlashPrefix(x: Text)
    ensures "//" <= x <==> TwoSlash(x)
  {
    if TwoSlash(x) {
      assert x[..2] == "//";
    }
  }

  /** What url.Parse makes of a text, its path, query and fragment aside: nothing
      when the scheme is missing before a colon; else the scheme, whether the
      rest has no leading slash and is opaque, and the authority with whether userinfo precedes it. */
  datatype Shape =
    | Missing
    | Shape(scheme: Text, rootless: bool, slashes: bool, at: bool, authority: Text)

  /** Whether userinfo is present, and what follows it. */
  function HostPart(part: Text): (bool, Text) {
    var i := LastIndex(part, '@');
    if i < |part| then (true, part[i + 1..]) else (false, part)
  }

  function RestShape(scheme: Text, rest: Text): Shape {
    if TwoSlash(rest) then
      var (at, authority) := HostPart(rest[2..][..IndexAny(rest[2..], "/?#")]);
      Shape(scheme, false, true, at, authority)
    else Shape(scheme, scheme != [] && !Slash(rest), false, false, [])
  }

  function ShapeOf(raw: Text): Shape {
    if raw != [] && raw[0] == ':' then Missing
    else
      var (scheme, rest) := SplitScheme(raw);
      RestShape(scheme, rest)
  }

  // ------------------------------------------------------------------ settling

  predicate LitSlashes(r: Masked) {
    |r| >= 2 && r[0] == Known('/') && r[1] == Known('/')
  }

  /** Position of the first known byte of a kind or gap. */
  function StopOrGap(s: Masked, stops: Text): (i: nat)
    ensures i <= |s| && (i < |s| ==> s[i].Gap? || s[i].c in stops)
    ensures forall j :: 0 <= j < i ==> s[j].Known? && s[j].c !in stops
  {
    if s == [] || s[0].Gap? || s[0].c in stops then 0 else 1 + StopOrGap(s[1..], stops)
  }

  function SettleScheme(s: Masked): Option<(Text, Masked)> {
    var i := StopOrGap(s, ":/?#");
    if i < |s| && s[i].Gap? then None
    else if 0 < i < |s| && s[i].c == ':' then Some((Bare(s[..i]), s[i + 1..]))
    else Some(([], s))
  }

  /** Position of the last gap or at sign, or the length. */
  function LastMark(s: Masked): (i: nat)
    ensures i <= |s| && (i < |s| ==> s[i].Gap? || s[i].c == '@')
    ensures forall j :: (if i < |s| then i else -1) < j < |s| ==> s[j].Known? && s[j].c != '@'
    decreases |s|
  {
    if s == [] then 0
    else if s[|s| - 1].Gap? || s[|s| - 1].c == '@' then |s| - 1
    else
      var i := LastMark(s[..|s| - 1]);
      if i < |s| - 1 then i else |s|
  }

  function SettleAuthority(region: Masked): Option<(bool, Text)> {
    var j := LastMark(region);
    if j == |region| then Some((false, Bare(region)))
    else if region[j].Gap? then None
    else Some((true, Bare(region[j + 1..])))
  }

  function PreQuery(s: Masked): Masked {
    s[..Stop(s, "?#")]
  }

  function QueryOf(s: Masked): Masked {
    var tail := s[Stop(s, "?#")..];
    if tail != [] && tail[0] == Known('?') then tail[1..][..Stop(tail[1..], "#")] else []
  }

  datatype Settled = Settled(shape: Shape, path: Masked)

  function SettleRest(scheme: Text, r: Masked): Option<Settled> {
    if LitSlashes(r) then
      var q := r[2..];
      var e := Stop(q, "/?#");
      var a := SettleAuthority(q[..e]);
      if a.None? then None else Some(Settled(Shape(scheme, false, true, a.value.0, a.value.1), PreQuery(q[e..])))
    else if TwoSlash(Bare(r)) || (scheme != [] && Slash(Bare(r)) && r != [] && r[0] != Known('/')) then None
    else Some(Settled(Shape(scheme, scheme != [] && !Slash(Bare(r)), false, false, []), PreQuery(r)))
  }

  /** The shape and the path that every filling has, if they have one. */
  function Settle(s: Masked): Option<Settled> {
    if s != [] && s[0] == Known(':') then Some(Settled(Missing, []))
    else
      var m := SettleScheme(s);
      if m.None? then None else SettleRest(m.value.0, m.value.1)
  }

  // ----------------------------------------------------------------- soundness

  lemma {:induction false} SlashIsKnown(r: Masked, v: Text -> Text)
    requires Fits(r, v, "/?#")
    ensures Slash(Fill(r, v)) ==> Slash(Bare(r))
    ensures r != [] && r[0] == Known('/') ==> Slash(Fill(r, v))
  {
    if r == [] || r[0].Known? {
    } else {
      var x := v(r[0].name);
      assert x != [] ==> x[0] in x && x[0] !in "/?#";
      assert '/' in "/?#";
      assert Fits(r[1..], v, "/?#");
      SlashIsKnown(r[1..], v);
    }
  }

  lemma {:induction false} SlashesAreKnown(r: Masked, v: Text -> Text)
    requires Fits(r, v, "/?#")
    ensures TwoSlash(Fill(r, v)) ==> TwoSlash(Bare(r))
    ensures LitSlashes(r) ==> TwoSlash(Fill(r, v)) && Fill(r, v)[2..] == Fill(r[2..], v)
  {
    if r == [] {
    } else {
      assert Fits(r[1..], v, "/?#");
      if r[0].Known? {
        SlashIsKnown(r[1..], v);
        if LitSlashes(r) {
          FillHead(r, v);
          FillHead(r[1..], v);
          assert r[1..][1..] == r[2..];
        }
      } else {
        var x := v(r[0].name);
        assert x != [] ==> x[0] !in "/?#";
        assert '/' in "/?#";
        SlashesAreKnown(r[1..], v);
      }
    }
  }

  /** The first of the four bytes decides about the scheme. */
  lemma SchemeAt(b: Text, c: Byte, rest: Text)
    requires Avoids(b, ":/?#") && c in ":/?#"
    ensures SplitScheme(b + ([c] + rest)) == if c == ':' && b != [] then (b, rest) else ([], b + ([c] + rest))
  {
    var x := b + ([c] + rest);
    assert x[|b|] == c && x[|b| + 1..] == rest && x[..|b|] == b;
    assert forall j :: 0 <= j < |b| ==> x[j] == b[j] && b[j] !in ":/?#";
    var colon := IndexOf(x, ':');
    if c == ':' {
      assert colon == |b|;
      assert IndexAny(b, "/?#") == |b|;
    } else if colon < |x| {
      assert |b| < colon && x[..colon][|b|] == c;
    }
  }

  lemma NoScheme(b: Text)
    requires Avoids(b, ":/?#")
    ensures SplitScheme(b) == ([], b)
  {
    assert ':' in ":/?#";
  }

  lemma FillAround(s: Masked, i: nat, v: Text -> Text)
    requires i < |s| && s[i].Known?
    ensures Fill(s, v) == Fill(s[..i], v) + ([s[i].c] + Fill(s[i + 1..], v))
  {
    FillSplit(s, i, v);
    assert s[i..][1..] == s[i + 1..];
  }

  lemma GapFreeAvoids(s: Masked, v: Text -> Text, stops: Text)
    requires forall i :: 0 <= i < |s| ==> s[i].Known? && s[i].c !in stops
    ensures Fill(s, v) == Bare(s) && |Fill(s, v)| == |s| && Avoids(Fill(s, v), stops)
  {
    FillGapFree(s, v);
  }

  lemma SchemeSound(s: Masked, v: Text -> Text)
    requires SettleScheme(s).Some?
    ensures SplitScheme(Fill(s, v)) == (SettleScheme(s).value.0, Fill(SettleScheme(s).value.1, v))
  {
    var i := StopOrGap(s, ":/?#");
    GapFreeAvoids(s[..i], v, ":/?#");
    if i < |s| {
      FillAround(s, i, v);
      SchemeAt(Fill(s[..i], v), s[i].c, Fill(s[i + 1..], v));
    } else {
      assert s[..i] == s;
      NoScheme(Fill(s, v));
    }
  }

  lemma AtSplit(a: Text, b: Text)
    requires Avoids(b, "@")
    ensures
      var x := a + (['@'] + b);
      HostPart(x) == (true, b)
  {
    var x := a + (['@'] + b);
    assert x[|a|] == '@';
    assert forall k :: |a| < k < |x| ==> x[k] == b[k - |a| - 1];
    assert LastIndex(x, '@') == |a| && x[|a| + 1..] == b;
  }

  lemma NoAt(b: Text)
    requires Avoids(b, "@")
    ensures HostPart(b) == (false, b)
  {
    assert '@' in "@";
  }

  lemma AuthoritySound(region: Masked, v: Text -> Text)
    requires SettleAuthority(region).Some?
    ensures HostPart(Fill(region, v)) == SettleAuthority(region).value
  {
    var j := LastMark(region);
    if j == |region| {
      GapFreeAvoids(region, v, "@");
      NoAt(Fill(region, v));
    } else {
      var a, b := Fill(region[..j], v), Fill(region[j + 1..], v);
      GapFreeAvoids(region[j + 1..], v, "@");
      assert SettleAuthority(region).value == (true, b);
      FillAround(region, j, v);
      AtSplit(a, b);
    }
  }

  /** The path before the query, and the query. */
  function PathText(raw: Text): Text {
    Split(raw).path
  }

  function QueryText(raw: Text): Text {
    Split(raw).query
  }

  lemma PreQuerySound(r: Masked, v: Text -> Text)
    requires Fits(r, v, "/?#")
    ensures Fill(r, v)[..IndexAny(Fill(r, v), "?#")] == Fill(PreQuery(r), v)
  {
    FitsFewer(r, v);
    FillStop(r, "?#", v);
  }

  lemma FitsFewer(r: Masked, v: Text -> Text)
    requires Fits(r, v, "/?#")
    ensures Fits(r, v, "?#") && Fits(r, v, "#")
  {
    assert forall c: Byte :: c in "?#" ==> c in "/?#";
    assert forall c: Byte :: c in "#" ==> c in "/?#";
  }

  lemma RestSound(scheme: Text, r: Masked, v: Text -> Text)
    requires SettleRest(scheme, r).Some? && Fits(r, v, "/?#")
    ensures RestShape(scheme, Fill(r, v)) == SettleRest(scheme, r).value.shape
    ensures
      var after := SplitAuthority(Fill(r, v)).2;
      after[..IndexAny(after, "?#")] == Fill(SettleRest(scheme, r).value.path, v)
  {
    SlashPrefix(Fill(r, v));
    SlashesAreKnown(r, v);
    if LitSlashes(r) {
      var q := r[2..];
      var e := Stop(q, "/?#");
      FillStop(q, "/?#", v);
      AuthoritySound(q[..e], v);
      PreQuerySound(q[e..], v);
    } else {
      SlashIsKnown(r, v);
      PreQuerySound(r, v);
    }
  }

  lemma NotMissing(s: Masked, v: Text -> Text)
    requires SettleScheme(s).Some? && (s != [] ==> s[0] != Known(':'))
    ensures Fill(s, v) != [] ==> Fill(s, v)[0] != ':'
  {
    if s != [] {
      assert s[0].Known?;
      FillHead(s, v);
    }
  }

  /** Whatever the gaps hold, a settled text has the settled shape and path. */
  lemma SettleSound(s: Masked, v: Text -> Text)
    requires Settle(s).Some? && Fits(s, v, "/?#")
    ensures ShapeOf(Fill(s, v)) == Settle(s).value.shape
    ensures Settle(s).value.shape != Missing ==> PathText(Fill(s, v)) == Fill(Settle(s).value.path, v)
  {
    if s != [] && s[0] == Known(':') {
      FillHead(s, v);
    } else {
      var (scheme, r) := SettleScheme(s).value;
      NotMissing(s, v);
      SchemeSound(s, v);
      assert Fits(r, v, "/?#");
      RestSound(scheme, r, v);
    }
  }

  // -------------------------------------------------------------------- query

  lemma AnyAfter(a: Text, b: Text, stops: Text)
    requires Avoids(a, stops)
    ensures IndexAny(a + b, stops) == |a| + IndexAny(b, stops)
    ensures (a + b)[IndexAny(a + b, stops)..] == b[IndexAny(b, stops)..]
  {
    var i := IndexAny(b, stops);
    assert b == b[..i] + b[i..];
    ConcatAssociates(a, b[..i], b[i..]);
    AvoidsConcat(a, b[..i], stops);
    IndexAnyAt(a + b[..i], b[i..], stops);
  }

  lemma SchemePrefix(raw: Text) returns (prefix: Text)
    ensures Avoids(prefix, "?#") && raw == prefix + SplitScheme(raw).1
  {
    var colon := IndexOf(raw, ':');
    prefix := [];
    if 0 < colon < |raw| && IndexAny(raw[..colon], "/?#") == colon {
      prefix := raw[..colon + 1];
      assert forall i :: 0 <= i < colon ==> prefix[i] == raw[..colon][i];
    }
  }

  lemma AuthorityPrefix(rest: Text) returns (prefix: Text)
    ensures Avoids(prefix, "?#") && rest == prefix + SplitAuthority(rest).2
  {
    SlashPrefix(rest);
    prefix := [];
    if TwoSlash(rest) {
      var q := rest[2..];
      var e := IndexAny(q, "/?#");
      prefix := "//" + q[..e];
      assert q == q[..e] + q[e..] && rest == "//" + q;
      ConcatAssociates("//", q[..e], q[e..]);
    }
  }

  /** The scheme and authority hold no question mark and no number sign. */
  lemma SplitPrefix(raw: Text) returns (prefix: Text)
    ensures Avoids(prefix, "?#")
    ensures raw == prefix + SplitAuthority(SplitScheme(raw).1).2
  {
    var rest := SplitScheme(raw).1;
    var a := SchemePrefix(raw);
    var b := AuthorityPrefix(rest);
    AvoidsConcat(a, b, "?#");
    ConcatAssociates(a, b, SplitAuthority(rest).2);
    prefix := a + b;
  }

  function AfterMark(tail: Text): Text {
    if tail != [] && tail[0] == '?' then tail[1..][..IndexAny(tail[1..], "#")] else []
  }

  lemma QueryIsLast(raw: Text)
    ensures QueryText(raw) == AfterMark(raw[IndexAny(raw, "?#")..])
  {
    var prefix := SplitPrefix(raw);
    var after := SplitAuthority(SplitScheme(raw).1).2;
    AnyAfter(prefix, after, "?#");
    var tail := after[IndexAny(after, "?#")..];
    assert "?" <= tail <==> tail != [] && tail[0] == '?' by {
      if tail != [] { assert tail[..1] == [tail[0]]; }
    }
    if tail != [] {
      ByteIsAny(tail[1..]);
    }
  }

  lemma ByteIsAny(x: Text)
    ensures IndexOf(x, '#') == IndexAny(x, "#")
  {
    var i, j := IndexOf(x, '#'), IndexAny(x, "#");
    assert '#' in "#";
    assert i < |x| ==> x[i] in "#";
    assert j < |x| ==> x[j] == '#';
  }

  lemma MarkSound(tail: Masked, v: Text -> Text)
    requires Fits(tail, v, "#") && (tail != [] ==> tail[0].Known?)
    ensures AfterMark(Fill(tail, v)) ==
            Fill(if tail != [] && tail[0] == Known('?') then tail[1..][..Stop(tail[1..], "#")] else [], v)
  {
    if tail != [] {
      FillHead(tail, v);
      FillStop(tail[1..], "#", v);
    }
  }

  lemma QuerySound(s: Masked, v: Text -> Text)
    requires Fits(s, v, "/?#")
    ensures QueryText(Fill(s, v)) == Fill(QueryOf(s), v)
  {
    QueryIsLast(Fill(s, v));
    FitsFewer(s, v);
    FillStop(s, "?#", v);
    MarkSound(s[Stop(s, "?#")..], v);
  }

  // ---------------------------------------------------------------- exactness

  lemma {:induction false} FillSame(s: Masked, c: Byte)
    ensures |Fill(s, Always([c]))| == |s|
    ensures forall i :: 0 <= i < |s| ==> Fill(s, Always([c]))[i] == if s[i].Known? then s[i].c else c
  {
    if s == [] {
    } else {
      FillSame(s[1..], c);
    }
  }

  /** A text with a gap has two fillings. */
  lemma GapTells(s: Masked)
    requires !GapFree(s)
    ensures Fill(s, Always("a")) != Fill(s, Always("b"))
  {
    FillSame(s, 'a');
    FillSame(s, 'b');
    var i :| 0 <= i < |s| && s[i].Gap?;
    assert Fill(s, Always("a"))[i] != Fill(s, Always("b"))[i];
  }

  lemma FillAtGap(s: Masked, i: nat, v: Text -> Text)
    requires i < |s| && s[i].Gap?
    ensures Fill(s, v) == Fill(s[..i], v) + (v(s[i].name) + Fill(s[i + 1..], v))
  {
    FillSplit(s, i, v);
    assert s[i..][1..] == s[i + 1..];
  }

  lemma ColonAfter(b: Text, c: Byte, rest: Text)
    requires Avoids(b, ":/?#") && c !in ":/?#"
    ensures
      var shape := ShapeOf(b + ([c, ':'] + rest));
      shape != Missing && shape.scheme == b + [c]
  {
    var x := b + ([c, ':'] + rest);
    assert x == (b + [c]) + ([':'] + rest);
    AvoidsConcat(b, [c], ":/?#");
    SchemeAt(b + [c], ':', rest);
    assert x[0] == (b + [c])[0] && ':' in ":/?#";
  }

  lemma UnsettledScheme(s: Masked, c: Byte)
    requires SettleScheme(s).None? && c !in ":/?#"
    ensures
      var i, shape := StopOrGap(s, ":/?#"), ShapeOf(Fill(s, Always([c, ':'])));
      shape != Missing && shape.scheme == Bare(s[..i]) + [c]
  {
    var i, v := StopOrGap(s, ":/?#"), Always([c, ':']);
    GapFreeAvoids(s[..i], v, ":/?#");
    FillAtGap(s, i, v);
    ColonAfter(Bare(s[..i]), c, Fill(s[i + 1..], v));
  }

  lemma SchemesDiffer(s: Masked)
    requires SettleScheme(s).None?
    ensures ShapeOf(Fill(s, Always("a:"))) != ShapeOf(Fill(s, Always("b:")))
  {
    UnsettledScheme(s, 'a');
    UnsettledScheme(s, 'b');
    var b := Bare(s[..StopOrGap(s, ":/?#")]);
    assert (b + ['a'])[|b|] != (b + ['b'])[|b|];
  }

  /** The byte before the last k of a text. */
  predicate TailByte(h: Text, k: nat, c: Byte) {
    |h| > k && h[|h| - k - 1] == c
  }

  lemma HostTail(a: Text, c: Byte, b: Text)
    requires c != '@' && Avoids(b, "@")
    ensures TailByte(HostPart(a + ([c] + b)).1, |b|, c)
  {
    var x := a + ([c] + b);
    assert x[|a|] == c;
    assert forall k :: |a| < k < |x| ==> x[k] == b[k - |a| - 1];
    assert LastIndex(x, '@') < |a| || LastIndex(x, '@') == |x|;
  }

  lemma FilledHost(a: Masked, b: Masked, c: Byte)
    requires c != '@' && forall i :: 0 <= i < |b| ==> b[i].Known? && b[i].c !in "@"
    ensures TailByte(HostPart(Fill(a, Always([c])) + ([c] + Fill(b, Always([c])))).1, |b|, c)
  {
    GapFreeAvoids(b, Always([c]), "@");
    HostTail(Fill(a, Always([c])), c, Fill(b, Always([c])));
  }

  lemma TailsDiffer(g: Text, h: Text, k: nat)
    requires TailByte(g, k, 'a') && TailByte(h, k, 'b')
    ensures g != h
  {
  }

  lemma UnsettledAuthority(region: Masked)
    requires SettleAuthority(region).None?
    ensures HostPart(Fill(region, Always("a"))).1 != HostPart(Fill(region, Always("b"))).1
  {
    var j := LastMark(region);
    var a, b := region[..j], region[j + 1..];
    FillAtGap(region, j, Always("a"));
    FillAtGap(region, j, Always("b"));
    FilledHost(a, b, 'a');
    FilledHost(a, b, 'b');
    TailsDiffer(HostPart(Fill(region, Always("a"))).1, HostPart(Fill(region, Always("b"))).1, |b|);
  }

  lemma UnsettledRest(scheme: Text, r: Masked) returns (x: Text, y: Text)
    requires SettleRest(scheme, r).None?
    ensures x in {"", "a", "b"} && y in {"", "a", "b"}
    ensures RestShape(scheme, Fill(r, Always(x))) != RestShape(scheme, Fill(r, Always(y)))
  {
    if LitSlashes(r) {
      x, y := "a", "b";
      var q := r[2..];
      var e := Stop(q, "/?#");
      forall c: Byte | c in "ab"
        ensures RestShape(scheme, Fill(r, Always([c]))).slashes
        ensures
          var shape := RestShape(scheme, Fill(r, Always([c])));
          (shape.at, shape.authority) == HostPart(Fill(q[..e], Always([c])))
      {
        SlashesAreKnown(r, Always([c]));
        FillStop(q, "/?#", Always([c]));
      }
      UnsettledAuthority(q[..e]);
      assert 'a' in "ab" && 'b' in "ab";
    } else {
      x, y := "", "a";
      FillSame(r, 'a');
    }
  }

  /** A text that is not settled has two fillings of different shapes, by texts
      that escaping leaves alone. */
  lemma SettleExact(s: Masked) returns (x: Text, y: Text)
    requires Settle(s).None?
    ensures x in {"", "a", "b", "a:", "b:"} && y in {"", "a", "b", "a:", "b:"}
    ensures ShapeOf(Fill(s, Always(x))) != ShapeOf(Fill(s, Always(y)))
  {
    if SettleScheme(s).None? {
      x, y := "a:", "b:";
      SchemesDiffer(s);
    } else {
      var (scheme, r) := SettleScheme(s).value;
      x, y := UnsettledRest(scheme, r);
      NotMissing(s, Always(x));
      NotMissing(s, Always(y));
      SchemeSound(s, Always(x));
      SchemeSound(s, Always(y));
    }
  }
}
