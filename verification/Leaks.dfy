/** Requests for which Prepare shows something of a private path parameter although
    its trace counts the parameter nowhere that matters. Each family breaks one
    part of the guard under which Noninterference is proved. */
module Leaks {
  import opened Base
  import opened Headers
  import opened Sorting
  import opened PathTemplate
  import opened UrlTrace
  import opened Masking
  import opened TargetTrace
  import opened TraceGuard
  import opened Percent
  import opened Legibility
  import opened OrderedHeaders
  import opened Checkpoints
  import opened Disclosure
  import E = Escaping
  import G = TemplateGuard
  import N = Noninterference
  import P = Prepared
  import Q = QueryPlan
  import Body

  // ------------------------------------------------------------- small targets

  lemma PrefixHolds(w: Text, s: Text, c: Byte)
    requires w <= s && c in w
    ensures c in s
  {
    var i :| 0 <= i < |w| && w[i] == c;
    assert s[i] == c;
  }

  /** A pattern with a byte that the text lacks is not found in it. */
  lemma {:induction false} CountAbsent(s: Text, w: Text, c: Byte)
    requires w != [] && c in w && c !in s
    ensures Count(s, w) == 0
    decreases |s|
  {
    if s == [] {
    } else if w <= s {
      PrefixHolds(w, s, c);
    } else {
      CountAbsent(s[1..], w, c);
    }
  }

  /** A template that starts with a slash has neither scheme nor authority. */
  lemma RootedSplit(x: Text)
    requires !Slash(x)
    ensures
      var t := ['/'] + x;
      && SplitScheme(t) == ([], t) && SplitAuthority(t) == ([], [], t) && !TwoSlash(t)
      && ShapeOf(t) == Shape([], false, false, false, [])
      && Split(t).scheme == [] && Split(t).authority == []
  {
    var t := ['/'] + x;
    SchemeAt([], '/', x);
    assert [] + t == t;
    SlashPrefix(t);
    assert !TwoSlash(t);
  }

  lemma RootedPath(x: Text)
    requires !Slash(x) && Avoids(x, "?#")
    ensures PathText(['/'] + x) == ['/'] + x
  {
    var t := ['/'] + x;
    RootedSplit(x);
    AvoidsConcat(['/'], x, "?#");
    IndexAnyAt(t, [], "?#");
    assert t + [] == t;
  }

  lemma ReplaceAfter(before: Text, name: Text, after: Text, v: Text)
    requires BraceFree(name) && '{' !in before && '{' !in after
    ensures ReplaceAll(before + (Placeholder(name) + after), Placeholder(name), v) == before + (v + after)
  {
    SkipPlain(before, Placeholder(name) + after, Placeholder(name), v);
    ReplaceHole(name, v, name, after);
    SkipPlain(after, [], Placeholder(name), v);
    assert after + [] == after;
  }

  /** Two targets that differ in one private value only. */
  predicate OneSecret(a: Source, b: Source) {
    a.template == b.template && a.template.public && SameButSecrets(a.params, b.params)
  }

  function WithOne(t: Text, name: Text, raw: Text): Source {
    Source(Value(t, true), map[name := Private(raw)])
  }

  function OneResolved(t: Text, name: Text, raw: Text): Text {
    Resolved(WithOne(t, name, raw), [name])
  }

  lemma OneDiffers(t: Text, name: Text, x: Text, y: Text)
    ensures OneSecret(WithOne(t, name, x), WithOne(t, name, y))
  {
  }

  lemma ResolveFirst(t: Text, params: map<Text, Text>, order: seq<Text>)
    requires order != [] && forall i :: 0 <= i < |order| ==> order[i] in params
    ensures Resolve(t, params, order) ==
            Resolve(ReplaceAll(t, Placeholder(order[0]), PathEscape(params[order[0]])), params, order[1..])
  {
  }

  lemma ResolvedOne(before: Text, name: Text, after: Text, raw: Text)
    requires BraceFree(name) && '{' !in before && '{' !in after && Verbatim(raw)
    ensures OneResolved(before + (Placeholder(name) + after), name, raw) == before + (raw + after)
  {
    var t := before + (Placeholder(name) + after);
    var params := Raws(WithOne(t, name, raw).params);
    assert name in params && params[name] == raw && [name][1..] == [];
    ReplaceAfter(before, name, after, raw);
    ResolveFirst(t, params, [name]);
  }

  /** What the eligibility check asks of a target. */
  predicate Unexposed(src: Source) {
    StructurePublic(src) && G.NameCountsPublic(src)
  }

  /** What blocks a request for a parameter is not counted. */
  predicate Uncounted(c: Counts) {
    c.inScheme == 0 && c.inAuthority == 0 && c.inQueryName == 0
  }

  predicate OnlySecret(src: Source, name: Text) {
    forall k :: k in src.params && k != name ==> src.params[k].public
  }

  /** The trace of the only private parameter decides. */
  lemma Unseen(src: Source, name: Text)
    requires OnlySecret(src, name) && Uncounted(Trace(src.template.raw, name))
    ensures Unexposed(src)
  {
  }

  lemma UnseenOne(t: Text, name: Text, raw: Text)
    requires Uncounted(Trace(t, name))
    ensures Unexposed(WithOne(t, name, raw))
  {
    Unseen(WithOne(t, name, raw), name);
  }

  lemma {:induction false} NoBraceNoName(q: Text, w: Text)
    requires w != [] && '{' in w && '{' !in q
    ensures SumNames(Pieces(q), w) == 0
    decreases |q|
  {
    var i := IndexOf(q, '&');
    if i >= |q| {
      G.LastPieceSum(q, w);
      CountAbsent(NamePart(q), w, '{');
    } else {
      G.FirstPieceSum(q, i, w);
      NoBraceNoName(q[i + 1..], w);
      CountAbsent(NamePart(q[..i]), w, '{');
    }
  }

  /** No placeholder opens after the question mark of the template. */
  lemma NoNameCounted(t: Text, name: Text)
    requires '{' !in t[IndexAny(t, "?#")..]
    ensures Trace(t, name).inQueryName == 0
  {
    QueryIsLast(t);
    assert '{' in Placeholder(name) by { assert Placeholder(name)[0] == '{'; }
    NoBraceNoName(QueryText(t), Placeholder(name));
  }

  lemma NoMarkNoTail(t: Text)
    requires Avoids(t, "?#")
    ensures t[IndexAny(t, "?#")..] == []
  {
  }

  /** A template whose only opening brace comes before any mark. */
  lemma TailWithoutBrace(before: Text, name: Text, after: Text)
    requires BraceFree(name) && Avoids(before, "?#") && '{' !in after
    ensures
      var t := before + (Placeholder(name) + after);
      '{' !in t[IndexAny(t, "?#")..]
  {
    var t := before + (Placeholder(name) + after);
    var head, tail := before + ['{'], name + (['}'] + after);
    assert t == head + tail;
    AvoidsConcat(before, ['{'], "?#");
    AnyAfter(head, tail, "?#");
    assert '{' !in tail;
  }

  lemma VerbatimByte(c: Byte)
    requires PathSafe(c)
    ensures Verbatim([c])
  {
    assert [c][1..] == [];
  }

  // ------------------------------------------------------------ the path leaks

  /** The trace lets the path be shown, and it is one byte. */
  predicate Shown(src: Source, x: Text, c: Byte) {
    && Unexposed(src) && PathCountsPublic(src)
    && ShapeOf(x) == Shape([], false, false, false, []) && PathText(x) == ['/', c]
  }

  /** A private parameter that the trace does not count, in a path of one byte. */
  lemma ByteShown(src: Source, name: Text, c: Byte)
    requires OnlySecret(src, name) && PathSafe(c)
    requires Uncounted(Trace(src.template.raw, name)) && Trace(src.template.raw, name).inPath == 0
    ensures Shown(src, ['/', c], c)
  {
    Unseen(src, name);
    BytePath(c);
  }

  /** Two targets that differ in a private value are shown with different paths. */
  predicate PathLeaks(a: Source, b: Source, x: Text, y: Text, c: Byte, d: Byte) {
    OneSecret(a, b) && Shown(a, x, c) && Shown(b, y, d) && c != d
  }

  lemma BytePath(c: Byte)
    requires PathSafe(c)
    ensures ShapeOf(['/', c]) == Shape([], false, false, false, []) && PathText(['/', c]) == ['/', c]
  {
    assert ['/'] + [c] == ['/', c];
    RootedSplit([c]);
    RootedPath([c]);
  }

  lemma {:induction false} NoneBlocked(params: seq<P.PathParam>)
    requires forall i :: 0 <= i < |params| ==> params[i].counts.inPath == 0 || params[i].value.public
    ensures P.FirstBlocked(params) == |params|
  {
    if params == [] {
    } else {
      NoneBlocked(params[1..]);
    }
  }

  lemma CountsShow(src: Source)
    requires PathCountsPublic(src)
    ensures P.FirstBlocked(N.TraceOf(src)) == |N.TraceOf(src)|
  {
    var names := SortedKeys(src.params.Keys);
    SortedKeysMeaning(src.params.Keys);
    forall i | 0 <= i < |names|
      ensures N.TraceOf(src)[i].counts.inPath == 0 || N.TraceOf(src)[i].value.public
    {
      assert names[i] in names;
    }
    NoneBlocked(N.TraceOf(src));
  }

  lemma {:induction false} NoneExposed(params: seq<P.PathParam>)
    requires forall i :: 0 <= i < |params| ==> !P.Exposed(params[i])
    ensures P.FirstExposed(params) == |params|
  {
    if params == [] {
    } else {
      NoneExposed(params[1..]);
    }
  }

  /** Such a target passes the eligibility check. */
  lemma UnexposedIsEligible(src: Source)
    requires Unexposed(src)
    ensures P.FirstExposed(N.TraceOf(src)) == |N.TraceOf(src)|
  {
    var names := SortedKeys(src.params.Keys);
    SortedKeysMeaning(src.params.Keys);
    forall i | 0 <= i < |names|
      ensures !P.Exposed(N.TraceOf(src)[i])
    {
      assert names[i] in names;
    }
    NoneExposed(N.TraceOf(src));
  }

  /** Prepare then shows different targets, with any resolver that tells the two
      paths apart. */
  lemma LeakIsPrepared(a: N.Request, b: N.Request, x: Text, y: Text, c: Byte, d: Byte, url: N.Resolver,
                       p: seq<Occurrence>, q: seq<Occurrence>)
    requires PathLeaks(a.source, b.source, x, y, c, d) && a.base.None? && b.base.None?
    requires url.path(ShapeOf(x), ['/', c]) != url.path(ShapeOf(x), ['/', d])
    ensures P.TargetOutcome(N.PlanOf(a, url, ShapeOf(x), x, p)).result != P.TargetOutcome(N.PlanOf(b, url, ShapeOf(y), y, q)).result
  {
    CountsShow(a.source);
    CountsShow(b.source);
  }

  function RootTemplate(name: Text): Text {
    ['/'] + (Placeholder(name) + [])
  }

  /** A name with a question mark or number sign, such as in "/{a?b}": the split
      cuts its placeholder in two, and the trace finds it nowhere. */
  lemma DelimiterInName(name: Text, c: Byte, d: Byte)
    requires BraceFree(name) && !Avoids(name, "?#")
    requires PathSafe(c) && PathSafe(d) && c != d
    ensures
      var a, b := WithOne(RootTemplate(name), name, [c]), WithOne(RootTemplate(name), name, [d]);
      PathLeaks(a, b, OneResolved(RootTemplate(name), name, [c]), OneResolved(RootTemplate(name), name, [d]), c, d)
  {
    RootShown(name, c);
    RootShown(name, d);
    OneDiffers(RootTemplate(name), name, [c], [d]);
  }

  lemma RootShown(name: Text, c: Byte)
    requires BraceFree(name) && !Avoids(name, "?#") && PathSafe(c)
    ensures Shown(WithOne(RootTemplate(name), name, [c]), OneResolved(RootTemplate(name), name, [c]), c)
  {
    CutPlaceholder(name);
    RootResolved(name, c);
    ByteShown(WithOne(RootTemplate(name), name, [c]), name, c);
  }

  lemma RootResolved(name: Text, c: Byte)
    requires BraceFree(name) && PathSafe(c)
    ensures OneResolved(RootTemplate(name), name, [c]) == ['/', c]
  {
    VerbatimByte(c);
    ResolvedOne(['/'], name, [], [c]);
    assert ['/'] + ([c] + []) == ['/', c];
  }

  lemma CutPlaceholder(name: Text)
    requires BraceFree(name) && !Avoids(name, "?#")
    ensures
      var c := Trace(RootTemplate(name), name);
      Uncounted(c) && c.inPath == 0
  {
    TailWithoutBrace(['/'], name, []);
    NoNameCounted(RootTemplate(name), name);
    RootedSplit(Placeholder(name) + []);
    CutPath(name);
  }

  lemma CutPath(name: Text)
    requires BraceFree(name) && !Avoids(name, "?#")
    ensures
      var t := RootTemplate(name);
      Count(t[..IndexAny(t, "?#")], Placeholder(name)) == 0
  {
    var t, k := RootTemplate(name), IndexAny(name, "?#");
    PathCut(name, "?#");
    assert Placeholder(name)[k + 1] == name[k] && name[k] in "?#";
    CountAbsent(t[..IndexAny(t, "?#")], Placeholder(name), name[k]);
  }

  /** The template is cut inside the name, before the byte it is cut at. */
  lemma PathCut(name: Text, stops: Text)
    requires !Avoids(name, stops) && '/' !in stops && '{' !in stops
    ensures IndexAny(name, stops) < |name|
    ensures Avoids(RootTemplate(name)[..IndexAny(RootTemplate(name), stops)], stops)
  {
    var t := RootTemplate(name);
    var i := IndexAny(t, stops);
    assert forall j :: 0 <= j < i ==> t[..i][j] == t[j];
  }

  function NestedTemplate(inner: Text): Text {
    ['/'] + (['{'] + (Placeholder(inner) + ['}']))
  }

  /** A public parameter whose value completes the placeholder of a private one. */
  function Nested(outer: Text, inner: Text, raw: Text): Source {
    Source(Value(NestedTemplate(inner), true), map[inner := Value(outer, true), outer := Private(raw)])
  }

  /** The public parameter is replaced first. */
  function NestedResolved(outer: Text, inner: Text, raw: Text): Text {
    Resolved(Nested(outer, inner, raw), [inner, outer])
  }

  lemma NestedDiffers(outer: Text, inner: Text, x: Text, y: Text)
    requires inner != outer
    ensures OneSecret(Nested(outer, inner, x), Nested(outer, inner, y))
  {
  }

  /** A placeholder that a public value completes, such as "/{{a}}" with a = "b":
      the template does not contain "{b}", and replacing {a} first makes it. */
  lemma NestedName(inner: Text, outer: Text, e: Byte, c: Byte, d: Byte)
    requires BraceFree(inner) && BraceFree(outer) && Verbatim(outer) && inner != outer
    requires e in outer && e !in inner && e !in "/{}" && Avoids(inner, "?#")
    requires PathSafe(c) && PathSafe(d) && c != d
    ensures
      var a, b := Nested(outer, inner, [c]), Nested(outer, inner, [d]);
      PathLeaks(a, b, NestedResolved(outer, inner, [c]), NestedResolved(outer, inner, [d]), c, d)
  {
    NestedShown(inner, outer, e, c);
    NestedShown(inner, outer, e, d);
    NestedDiffers(outer, inner, [c], [d]);
  }

  lemma NestedShown(inner: Text, outer: Text, e: Byte, c: Byte)
    requires BraceFree(inner) && BraceFree(outer) && Verbatim(outer) && inner != outer
    requires e in outer && e !in inner && e !in "/{}" && Avoids(inner, "?#") && PathSafe(c)
    ensures Shown(Nested(outer, inner, [c]), NestedResolved(outer, inner, [c]), c)
  {
    NestedCounts(inner, outer, e);
    NestedPath(inner, outer, c);
    ByteShown(Nested(outer, inner, [c]), outer, c);
  }

  lemma NestedNoMark(inner: Text)
    requires Avoids(inner, "?#")
    ensures '{' !in NestedTemplate(inner)[IndexAny(NestedTemplate(inner), "?#")..]
  {
    AvoidsConcat(['{'] + inner, ['}'] + ['}'], "?#");
    assert NestedTemplate(inner) == ['/', '{'] + ((['{'] + inner) + (['}'] + ['}']));
    AvoidsConcat(['/', '{'], (['{'] + inner) + (['}'] + ['}']), "?#");
    NoMarkNoTail(NestedTemplate(inner));
  }

  lemma NestedCounts(inner: Text, outer: Text, e: Byte)
    requires e in outer && e !in inner && e !in "/{}" && Avoids(inner, "?#")
    ensures
      var c := Trace(NestedTemplate(inner), outer);
      Uncounted(c) && c.inPath == 0
  {
    NestedNoMark(inner);
    NoNameCounted(NestedTemplate(inner), outer);
    var x := ['{'] + (Placeholder(inner) + ['}']);
    RootedSplit(x);
    NestedText(inner, outer, e);
    RootedPath(x);
    CountAbsent(['/'] + x, Placeholder(outer), e);
  }

  lemma NestedText(inner: Text, outer: Text, e: Byte)
    requires e in outer && e !in inner && e !in "/{}" && Avoids(inner, "?#")
    ensures
      var x := ['{'] + (Placeholder(inner) + ['}']);
      Avoids(x, "?#") && e !in ['/'] + x && e in Placeholder(outer)
  {
    assert '/' in "/{}" && '{' in "/{}" && '}' in "/{}";
  }

  lemma NestedPath(inner: Text, outer: Text, c: Byte)
    requires BraceFree(inner) && BraceFree(outer) && Verbatim(outer) && inner != outer && PathSafe(c)
    ensures NestedResolved(outer, inner, [c]) == ['/', c]
  {
    var params := Raws(Nested(outer, inner, [c]).params);
    assert params[inner] == outer && params[outer] == [c];
    NestedFirst(inner, outer);
    VerbatimByte(c);
    ReplaceAfter(['/'], outer, [], [c]);
    assert Placeholder(outer) + [] == Placeholder(outer) && ['/'] + ([c] + []) == ['/', c];
    assert [inner, outer][1..] == [outer] && [outer][1..] == [];
    ResolveFirst(NestedTemplate(inner), params, [inner, outer]);
    ResolveFirst(['/'] + Placeholder(outer), params, [outer]);
  }

  lemma NestedFirst(inner: Text, v: Text)
    requires BraceFree(inner) && BraceFree(v)
    ensures ReplaceAll(NestedTemplate(inner), Placeholder(inner), v) == ['/'] + Placeholder(v)
  {
    var w, rest := Placeholder(inner), Placeholder(inner) + ['}'];
    SkipPlain(['/'], ['{'] + rest, w, v);
    assert rest[0] == '{' && (inner + ['}'])[0] != '{';
    ReplaceOpen(inner, v, rest);
    ReplaceHole(inner, v, inner, ['}']);
    SkipPlain(['}'], [], w, v);
    assert ['{'] + (v + (['}'] + [])) == Placeholder(v);
  }

  // ------------------------------------------- scheme, authority and query names

  function SegmentTemplate(name: Text): Text {
    [] + (Placeholder(name) + ['/'])
  }

  lemma FirstSegment(name: Text)
    requires BraceFree(name) && Avoids(name, ":/?#")
    ensures Uncounted(Trace(SegmentTemplate(name), name))
  {
    var w := Placeholder(name);
    assert Avoids(w, ":/?#");
    SchemeAt(w, '/', []);
    var t := SegmentTemplate(name);
    assert t == w + (['/'] + []) && t[0] == '{';
    SlashPrefix(t);
    TailWithoutBrace([], name, ['/']);
    NoNameCounted(t, name);
  }

  predicate HasScheme(x: Text, scheme: Text) {
    ShapeOf(x) != Missing && ShapeOf(x).scheme == scheme
  }

  predicate Letter(c: Byte) {
    'a' <= c <= 'z' || 'A' <= c <= 'Z'
  }

  /** A private value in the first segment, as in "{a}/", brings its own scheme. */
  lemma ColonInValue(name: Text, c: Byte)
    requires BraceFree(name) && Avoids(name, ":/?#") && Letter(c)
    ensures
      var src := WithOne(SegmentTemplate(name), name, [c, ':']);
      Unexposed(src) && HasScheme(OneResolved(SegmentTemplate(name), name, [c, ':']), [c])
  {
    FirstSegment(name);
    UnseenOne(SegmentTemplate(name), name, [c, ':']);
    OwnScheme(name, c);
  }

  lemma VerbatimColon(c: Byte)
    requires PathSafe(c)
    ensures Verbatim([c, ':'])
  {
    assert [c, ':'][1..] == [':'];
    VerbatimByte(':');
  }

  lemma OwnScheme(name: Text, c: Byte)
    requires BraceFree(name) && Letter(c)
    ensures HasScheme(OneResolved(SegmentTemplate(name), name, [c, ':']), [c])
  {
    VerbatimColon(c);
    ResolvedOne([], name, ['/'], [c, ':']);
    LetterScheme(c);
  }

  lemma LetterScheme(c: Byte)
    requires Letter(c)
    ensures HasScheme([] + ([c, ':'] + ['/']), [c])
  {
    assert c !in ":/?#";
    ColonAfter([], c, ['/']);
    assert [] + [c] == [c];
  }

  /** Of two such requests Prepare shows different schemes. */
  lemma ColonIsPrepared(a: N.Request, b: N.Request, name: Text, c: Byte, d: Byte, url: N.Resolver,
                        p: seq<Occurrence>, q: seq<Occurrence>)
    requires BraceFree(name) && Avoids(name, ":/?#") && Letter(c) && Letter(d) && url.scheme([c]) != url.scheme([d])
    ensures
      var x, y := OneResolved(SegmentTemplate(name), name, [c, ':']), OneResolved(SegmentTemplate(name), name, [d, ':']);
      && ShapeOf(x) != Missing && ShapeOf(y) != Missing
      && P.TargetOutcome(N.PlanOf(a, url, ShapeOf(x), x, p)).result != P.TargetOutcome(N.PlanOf(b, url, ShapeOf(y), y, q)).result
  {
    ColonInValue(name, c);
    ColonInValue(name, d);
  }

  function HostTemplate(name: Text, host: Text): Text {
    ['/'] + (Placeholder(name) + (['/'] + host))
  }

  /** An empty private value joins two slashes, as in "/{a}/h", and a segment
      becomes the host. */
  lemma EmptySegment(name: Text, host: Text)
    requires BraceFree(name) && host != [] && Avoids(host, "{/?#@")
    ensures
      var a, b := WithOne(HostTemplate(name, host), name, []), WithOne(HostTemplate(name, host), name, ['x']);
      && OneSecret(a, b) && Unexposed(a) && Unexposed(b)
      && ShapeOf(OneResolved(HostTemplate(name, host), name, [])) == Shape([], false, true, false, host)
      && ShapeOf(OneResolved(HostTemplate(name, host), name, ['x'])) == Shape([], false, false, false, [])
  {
    HostUnseen(name, host);
    UnseenOne(HostTemplate(name, host), name, []);
    UnseenOne(HostTemplate(name, host), name, ['x']);
    OneDiffers(HostTemplate(name, host), name, [], ['x']);
    HostResolved(name, host);
  }

  lemma HostUnseen(name: Text, host: Text)
    requires BraceFree(name) && Avoids(host, "{/?#@")
    ensures Uncounted(Trace(HostTemplate(name, host), name))
  {
    RootedSplit(Placeholder(name) + (['/'] + host));
    assert '{' in "{/?#@" && '{' !in ['/'] + host;
    TailWithoutBrace(['/'], name, ['/'] + host);
    NoNameCounted(HostTemplate(name, host), name);
  }

  /** Of two such requests without a base URL Prepare shows different authorities. */
  lemma SegmentIsPrepared(a: N.Request, b: N.Request, name: Text, host: Text, url: N.Resolver,
                          p: seq<Occurrence>, q: seq<Occurrence>)
    requires BraceFree(name) && host != [] && Avoids(host, "{/?#@") && url.host(host) != url.host([])
    requires a.base.None? && b.base.None?
    ensures
      var x, y := OneResolved(HostTemplate(name, host), name, []), OneResolved(HostTemplate(name, host), name, ['x']);
      && ShapeOf(x) != Missing && ShapeOf(y) != Missing
      && P.TargetOutcome(N.PlanOf(a, url, ShapeOf(x), x, p)).result != P.TargetOutcome(N.PlanOf(b, url, ShapeOf(y), y, q)).result
  {
    EmptySegment(name, host);
  }

  lemma HostResolved(name: Text, host: Text)
    requires BraceFree(name) && Avoids(host, "{/?#@")
    ensures ShapeOf(OneResolved(HostTemplate(name, host), name, [])) == Shape([], false, true, false, host)
    ensures ShapeOf(OneResolved(HostTemplate(name, host), name, ['x'])) == Shape([], false, false, false, [])
  {
    var after := ['/'] + host;
    assert '{' in "{/?#@" && '{' !in after;
    VerbatimByte('x');
    ResolvedOne(['/'], name, after, []);
    ResolvedOne(['/'], name, after, ['x']);
    RootedSplit(['x'] + after);
    assert [] + after == after;
    HostOnly(host);
  }

  lemma HostOnly(host: Text)
    requires Avoids(host, "{/?#@")
    ensures ShapeOf(['/'] + (['/'] + host)) == Shape([], false, true, false, host)
  {
    var x := ['/'] + (['/'] + host);
    SchemeAt([], '/', ['/'] + host);
    assert [] + x == x;
    HostRest(host);
  }

  lemma HostRest(host: Text)
    requires Avoids(host, "{/?#@")
    ensures RestShape([], ['/'] + (['/'] + host)) == Shape([], false, true, false, host)
  {
    var x := ['/'] + (['/'] + host);
    assert x[0] == '/' && x[1] == '/' && x[2..] == host;
    assert Avoids(host, "/?#") && Avoids(host, "@");
    IndexAnyAt(host, [], "/?#");
    assert host + [] == host && host[..|host|] == host;
    NoAt(host);
  }

  function QueryTemplate(name: Text): Text {
    ['/', '?', 'k', '='] + (Placeholder(name) + [])
  }

  /** The query holds "k" and one other name, each with an empty value. */
  ghost predicate TwoNames(q: Text, c: Byte) {
    E.ParseQuery(q).ok && forall n :: E.Get(E.Query(q), n) == if n == ['k'] || n == [c] then [[]] else []
  }

  /** A private value in a query value, as in "/?k={a}", brings its own name. */
  lemma AmpersandInValue(name: Text, c: Byte)
    requires BraceFree(name) && NoDelimiter(name) && 'k' !in name && name != [] && E.Unreserved(c) && c != 'k'
    ensures Unexposed(WithOne(QueryTemplate(name), name, ['&', c, '=']))
    ensures TwoNames(QueryText(OneResolved(QueryTemplate(name), name, ['&', c, '='])), c)
  {
    QueryUnexposed(name, ['&', c, '=']);
    ResolvedNames(name, c);
  }

  lemma QueryUnexposed(name: Text, raw: Text)
    requires NoDelimiter(name) && 'k' !in name && name != []
    ensures Unexposed(WithOne(QueryTemplate(name), name, raw))
  {
    QueryCounts(name);
    QueryStructure(name);
    UnseenOne(QueryTemplate(name), name, raw);
  }

  lemma ResolvedNames(name: Text, c: Byte)
    requires BraceFree(name) && E.Unreserved(c) && c != 'k'
    ensures TwoNames(QueryText(OneResolved(QueryTemplate(name), name, ['&', c, '='])), c)
  {
    QueryResolved(name, c);
    QueryNames(c);
  }

  lemma QueryStructure(name: Text)
    ensures Trace(QueryTemplate(name), name).inScheme == 0 && Trace(QueryTemplate(name), name).inAuthority == 0
  {
    var x := ['?', 'k', '='] + (Placeholder(name) + []);
    assert QueryTemplate(name) == ['/'] + x;
    RootedCounts(x, Placeholder(name));
  }

  lemma RootedCounts(x: Text, w: Text)
    requires !Slash(x) && w != []
    ensures Count(Split(['/'] + x).scheme, w) == 0 && Count(Split(['/'] + x).authority, w) == 0
  {
    RootedSplit(x);
  }

  lemma QueryResolved(name: Text, c: Byte)
    requires BraceFree(name) && E.Unreserved(c)
    ensures QueryText(OneResolved(QueryTemplate(name), name, ['&', c, '='])) == ['k', '='] + ['&', c, '=']
  {
    var v := ['&', c, '='];
    assert v[1..] == [c, '='] && [c, '='][1..] == ['='];
    VerbatimByte('=');
    assert Verbatim([c, '=']);
    ResolvedOne(['/', '?', 'k', '='], name, [], v);
    var q := ['k', '='] + v;
    assert ['/', '?', 'k', '='] + (v + []) == ['/'] + (['?'] + q);
    QueryPart(q);
  }

  lemma QueryPart(q: Text)
    requires Avoids(q, "#")
    ensures QueryText(['/'] + (['?'] + q)) == q
  {
    QueryIsLast(['/'] + (['?'] + q));
    MarkAfterSlash(q);
    OnlyQuery(q);
  }

  lemma MarkAfterSlash(q: Text)
    ensures
      var t := ['/'] + (['?'] + q);
      t[IndexAny(t, "?#")..] == ['?'] + q
  {
    IndexAnyAt(['/'], ['?'] + q, "?#");
  }

  lemma OnlyQuery(q: Text)
    requires Avoids(q, "#")
    ensures SplitQuery(['?'] + q).0 == q && AfterMark(['?'] + q) == q
  {
    assert (['?'] + q)[1..] == q;
    IndexAnyAt(q, [], "#");
    assert q + [] == q;
  }

  lemma NameBefore(a: Text, b: Text)
    requires Avoids(a, "=")
    ensures NamePart(a + (['='] + b)) == a
  {
    var x := a + (['='] + b);
    assert x[|a|] == '=' && x[..|a|] == a && '=' in "=";
    assert forall i :: 0 <= i < |a| ==> x[i] == a[i];
  }

  lemma OneName(name: Text)
    requires NoDelimiter(name) && name != [] && 'k' !in name
    ensures SumNames(Pieces(['k'] + (['='] + Placeholder(name))), Placeholder(name)) == 0
  {
    var w := Placeholder(name);
    PlaceholderPlain(name);
    var q := ['k'] + (['='] + w);
    assert '&' in "&" && IndexOf(q, '&') == |q|;
    G.LastPieceSum(q, w);
    NameBefore(['k'], w);
    assert name[0] == w[1];
    CountAbsent(['k'], w, name[0]);
  }

  lemma QueryCounts(name: Text)
    requires NoDelimiter(name) && name != [] && 'k' !in name
    ensures Trace(QueryTemplate(name), name).inQueryName == 0
  {
    var q := ['k'] + (['='] + Placeholder(name));
    assert QueryTemplate(name) == ['/'] + (['?'] + q);
    PlaceholderPlain(name);
    QueryPart(q);
    OneName(name);
  }

  lemma PlaceholderPlain(name: Text)
    requires NoDelimiter(name)
    ensures
      var q := ['k'] + (['='] + Placeholder(name));
      Avoids(q, "#") && Avoids(q, "&")
  {
    assert Delimiter('#') && Delimiter('&');
  }

  lemma EscapeOne(x: Byte)
    requires E.Unreserved(x)
    ensures E.Escape([x]) == [x]
  {
    assert [x][1..] == [];
  }

  lemma QueryNames(c: Byte)
    requires E.Unreserved(c) && c != 'k'
    ensures TwoNames(['k', '='] + ['&', c, '='], c)
  {
    var none: Text := [];
    var k: E.Pair := Named(['k'], none);
    var other: E.Pair := Named([c], none);
    var pairs := [k, other];
    EscapeOne('k');
    EscapeOne(c);
    assert pairs[1..] == [other] && [other][1..] == [];
    assert E.JoinPairs([other]) == [c, '='];
    assert E.JoinPairs(pairs) == ['k', '='] + ['&', c, '='];
    E.ParseJoin(pairs);
    forall n
      ensures E.Get(E.Group(map[], pairs), n) == if n == ['k'] || n == [c] then [none] else []
    {
      E.GroupMeaning(map[], pairs, n);
      TwoValues(k, other, n);
    }
  }

  lemma TwoValues(a: E.Pair, b: E.Pair, n: Text)
    requires a.name != b.name
    ensures ValuesFor([a, b], n) == if n == a.name then [a.value] else if n == b.name then [b.value] else []
  {
    assert [a, b][1..] == [b] && [b][1..] == [];
    assert ValuesFor([b], n) == if n == b.name then [b.value] else [];
  }

  // ------------------------------------------------- query rows that differ

  lemma {:induction false} RowNames(s: seq<Occurrence>, names: seq<Text>, n: nat)
    requires n <= |names|
    ensures |P.QueryRows(s, names, n)| == n
    ensures forall i :: 0 <= i < n ==> P.QueryRows(s, names, n)[i].name == names[i]
  {
    if n == 0 {
    } else {
      RowNames(s, names, n - 1);
    }
  }

  /** Equal rows have equal names. */
  lemma RowsTellNames(s: seq<Occurrence>, t: seq<Occurrence>)
    requires P.QueryOutcome(s).result == P.QueryOutcome(t).result
    ensures P.NameSet(s) == P.NameSet(t)
  {
    var m, n := SortedKeys(P.NameSet(s)), SortedKeys(P.NameSet(t));
    RowNames(s, m, |m|);
    RowNames(t, n, |n|);
    assert m == n;
    SortedKeysMeaning(P.NameSet(s));
    SortedKeysMeaning(P.NameSet(t));
  }

  lemma NameInSet(s: seq<Occurrence>, name: Text)
    ensures name in P.NameSet(s) <==> ValuesFor(s, name) != []
  {
    AbsentIffNoValues(s, name);
  }

  /** The plan's query occurrences for a relative target without base and builder. */
  function Compiled(rawQuery: Text): Result<seq<Occurrence>, Q.QueryError> {
    Q.Compile(None, Q.Target(false, rawQuery), [])
  }

  predicate Shows(r: Result<seq<Occurrence>, Q.QueryError>, n: Text) {
    r.Success? && ValuesFor(r.value, n) != []
  }

  /** Two compiled queries of which Prepare shows different rows. */
  predicate RowsDiffer(p: Result<seq<Occurrence>, Q.QueryError>, q: Result<seq<Occurrence>, Q.QueryError>) {
    p.Success? && q.Success? && P.QueryOutcome(p.value).result != P.QueryOutcome(q.value).result
  }

  lemma NameTells(p: Result<seq<Occurrence>, Q.QueryError>, q: Result<seq<Occurrence>, Q.QueryError>, n: Text)
    requires Shows(p, n) && q.Success? && !Shows(q, n)
    ensures RowsDiffer(p, q)
  {
    NameInSet(p.value, n);
    NameInSet(q.value, n);
    if P.QueryOutcome(p.value).result == P.QueryOutcome(q.value).result {
      RowsTellNames(p.value, q.value);
    }
  }

  /** The query of "/?k={a}" with a value that brings a name. */
  function Brought(c: Byte): Text {
    ['k', '='] + ['&', c, '=']
  }

  lemma AmpersandCompiles(c: Byte, n: Text)
    requires E.Unreserved(c) && c != 'k'
    ensures Compiled(Brought(c)).Success? && (Shows(Compiled(Brought(c)), n) <==> n == ['k'] || n == [c])
  {
    var raw := Brought(c);
    QueryNames(c);
    Q.CompiledLayers(None, Q.Target(false, raw), [], n);
    var values := E.Get(E.Query(raw), n);
    assert Q.PathLayer(Q.Target(false, raw), n) == values;
    assert Q.Tag([]) + Q.Tag(values) + [] == Q.Tag(values);
    assert values != [] <==> Q.Tag(values) != [];
  }

  /** Of two such requests Prepare shows different query rows. */
  lemma AmpersandIsPrepared(name: Text, c: Byte, d: Byte)
    requires BraceFree(name) && NoDelimiter(name) && 'k' !in name && name != []
    requires E.Unreserved(c) && E.Unreserved(d) && c != 'k' && d != 'k' && c != d
    ensures RowsDiffer(Compiled(QueryText(OneResolved(QueryTemplate(name), name, ['&', c, '=']))),
                       Compiled(QueryText(OneResolved(QueryTemplate(name), name, ['&', d, '=']))))
  {
    QueryResolved(name, c);
    QueryResolved(name, d);
    AmpersandCompiles(c, [c]);
    AmpersandCompiles(d, [c]);
    assert [c][0] != ['k'][0] && [c][0] != [d][0];
    NameTells(Compiled(Brought(c)), Compiled(Brought(d)), [c]);
  }

  // ------------------------------------------------------- refused or accepted

  function EscapeTemplate(name: Text): Text {
    ['/', '%'] + (Placeholder(name) + [])
  }

  lemma PlainAccepted(x: Text)
    requires !Slash(x) && Avoids(x, "?#") && All(x, Printable)
    ensures Accepted(['/'] + x) <==> WellEscaped(x)
  {
    var t := ['/'] + x;
    RootedSplit(x);
    RootedPath(x);
    assert Split(t).userinfo == [];
    assert forall c: Byte :: c in "#" ==> c in "?#";
    AvoidsConcat(['/'], x, "#");
    IndexAnyAt(t, [], "#");
    assert t + [] == t && BeforeHash(t) == t && AfterHash(t) == [];
    assert t[1..] == x && WellFrom(t, 0) == WellFrom(x, 0);
    AllConcat(['/'], x, Printable);
  }

  /** A private value inside an escape, as in "/%{a}": two hex digits complete it,
      other bytes make url.Parse refuse the request, although the trace withholds
      the path and the request is eligible. */
  lemma EscapeInValue(name: Text, c: Byte, d: Byte)
    requires BraceFree(name) && IsHex(c) && IsHex(d)
    ensures Unexposed(WithOne(EscapeTemplate(name), name, [c, d])) && Unexposed(WithOne(EscapeTemplate(name), name, ['z', 'z']))
    ensures Accepted(OneResolved(EscapeTemplate(name), name, [c, d]))
    ensures !Accepted(OneResolved(EscapeTemplate(name), name, ['z', 'z']))
  {
    EscapeUnexposed(name, [c, d]);
    EscapeResolved(name, c, d);
    EscapeRefused(name);
  }

  lemma EscapeRefused(name: Text)
    requires BraceFree(name)
    ensures Unexposed(WithOne(EscapeTemplate(name), name, ['z', 'z']))
    ensures !Accepted(OneResolved(EscapeTemplate(name), name, ['z', 'z']))
  {
    EscapeUnexposed(name, ['z', 'z']);
    EscapeResolved(name, 'z', 'z');
  }

  lemma EscapeUnexposed(name: Text, raw: Text)
    requires BraceFree(name)
    ensures Unexposed(WithOne(EscapeTemplate(name), name, raw))
  {
    EscapeUnseen(name);
    UnseenOne(EscapeTemplate(name), name, raw);
  }

  lemma EscapeUnseen(name: Text)
    requires BraceFree(name)
    ensures Uncounted(Trace(EscapeTemplate(name), name))
  {
    EscapeRooted(name);
    TailWithoutBrace(['/', '%'], name, []);
    NoNameCounted(EscapeTemplate(name), name);
  }

  lemma EscapeRooted(name: Text)
    ensures Split(EscapeTemplate(name)).scheme == [] && Split(EscapeTemplate(name)).authority == []
  {
    var x := ['%'] + (Placeholder(name) + []);
    assert EscapeTemplate(name) == ['/'] + x;
    RootedSplit(x);
  }

  lemma VerbatimPair(c: Byte, d: Byte)
    requires PathSafe(c) && PathSafe(d)
    ensures Verbatim([c, d])
  {
    assert [c, d][1..] == [d];
    VerbatimByte(d);
  }

  lemma EscapeResolved(name: Text, c: Byte, d: Byte)
    requires BraceFree(name) && E.Unreserved(c) && E.Unreserved(d)
    ensures Accepted(OneResolved(EscapeTemplate(name), name, [c, d])) <==> IsHex(c) && IsHex(d)
  {
    VerbatimPair(c, d);
    ResolvedOne(['/', '%'], name, [], [c, d]);
    var x := ['%', c, d];
    assert ['/', '%'] + ([c, d] + []) == ['/'] + x;
    assert c !in "?#" && d !in "?#";
    PlainAccepted(x);
    EscapeAt(x);
    assert x[3..] == [];
  }

  /** The refused request does not compile, whatever the resolver accepts. */
  lemma EscapeIsPrepared(r: N.Request, name: Text, url: N.Resolver)
    requires BraceFree(name) && r.source == WithOne(EscapeTemplate(name), name, ['z', 'z'])
    ensures N.Compile(r, [name], url).None?
  {
    EscapeRefused(name);
  }

  // ------------------------------------------------------- a missing Content-Type

  function WithType(r: N.Request, value: Text): N.Request {
    r.(requestHeaders := r.requestHeaders + [Named(CONTENT_TYPE, Private(value))])
  }

  lemma TypeAppended(r: N.Request, value: Text)
    requires ValuesOf(r.requestHeaders, CONTENT_TYPE) == []
    ensures N.LocalType(WithType(r, value)) == value
  {
    var one := [Named(CONTENT_TYPE, Private(value))];
    ValuesOfConcat(r.requestHeaders, one, CONTENT_TYPE);
    assert one[1..] == [];
  }

  /** A typed body whose private Content-Type is empty in one request and not in
      the other: they differ in private content only, and the one is refused for
      its Content-Type while the other is not. */
  lemma EmptyTypeIsSeen(r: N.Request, value: Text, order: seq<Text>, url: N.Resolver, validFile: Body.FilePart -> bool)
    requires ValuesOf(r.requestHeaders, CONTENT_TYPE) == [] && value != [] && N.Typed(r.body) && r.retained.None?
    requires forall i :: 0 <= i < |order| ==> order[i] in r.source.params
    requires N.Compile(WithType(r, []), order, url).Some? && N.Compile(WithType(r, value), order, url).Some?
    ensures N.LowEquivalent(WithType(r, []), WithType(r, value)) && !N.TypesAlike(WithType(r, []), WithType(r, value))
    ensures N.Call(WithType(r, []), order, url, 0, validFile, N.Calm()) == Failure(UnsupportedContentType)
    ensures N.Call(WithType(r, value), order, url, 0, validFile, N.Calm()) != Failure(UnsupportedContentType)
  {
    TypeAppended(r, []);
    TypeAppended(r, value);
    TypesErased(r, [], value);
    N.SameTemplateIsLow(r.source, r.source);
    TypedCall(r, [], order, url, validFile);
    TypedCall(r, value, order, url, validFile);
  }

  lemma TypedCall(r: N.Request, value: Text, order: seq<Text>, url: N.Resolver, validFile: Body.FilePart -> bool)
    requires ValuesOf(r.requestHeaders, CONTENT_TYPE) == [] && N.Typed(r.body) && r.retained.None?
    requires forall i :: 0 <= i < |order| ==> order[i] in r.source.params
    requires N.Compile(WithType(r, value), order, url).Some?
    ensures N.Call(WithType(r, value), order, url, 0, validFile, N.Calm()) == Failure(UnsupportedContentType) <==> value == []
  {
    TypeAppended(r, value);
    N.UntypedIsReported(WithType(r, value), order, url, validFile);
  }

  lemma TypesErased(r: N.Request, x: Text, y: Text)
    ensures N.LowHeaders(WithType(r, x), WithType(r, y))
  {
    var p, q := [Named(CONTENT_TYPE, Private(x))], [Named(CONTENT_TYPE, Private(y))];
    N.HeadersConcat(r.requestHeaders, p);
    N.HeadersConcat(r.requestHeaders, q);
    assert EraseHeaders(p) == EraseHeaders(q);
  }

  // ----------------------------------------------------------------- instances

  /** "/{a?b}" belongs to the family of DelimiterInName. */
  lemma DelimiterInstance(name: Text)
    requires name == "a?b"
    ensures RootTemplate(name) == "/{a?b}" && BraceFree(name) && !Avoids(name, "?#")
  {
    assert name[1] == '?';
  }

  /** "/{{a}}" with a = "b" belongs to the family of NestedName. */
  lemma NestedInstance(inner: Text, outer: Text)
    requires inner == "a" && outer == "b"
    ensures NestedTemplate(inner) == "/{{a}}" && BraceFree(inner) && BraceFree(outer) && Verbatim(outer)
    ensures 'b' in outer && 'b' !in inner && 'b' !in "/{}" && Avoids(inner, "?#")
  {
    VerbatimByte('b');
    assert outer == ['b'] && inner == ['a'];
  }
}
