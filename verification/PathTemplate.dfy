/** Path parameters: sequential replacement over a map, in whatever order the
    map is iterated, against one simultaneous substitution (request_metadata.go). */
module PathTemplate {
  import opened Base
  import Escaping

  // ---------------------------------------------------------- library strings

  /** strings.ReplaceAll for a non-empty pattern. */
  function ReplaceAll(s: Text, w: Text, v: Text): Text
    requires w != []
    decreases |s|
  {
    if s == [] then []
    else if w <= s then v + ReplaceAll(s[|w|..], w, v)
    else [s[0]] + ReplaceAll(s[1..], w, v)
  }

  predicate Brace(c: Byte) {
    c == '{' || c == '}'
  }

  predicate BraceFree(s: Text) {
    forall i :: 0 <= i < |s| ==> !Brace(s[i])
  }

  predicate PathSafe(c: Byte) {
    Escaping.Unreserved(c) || c == '$' || c == '&' || c == '+' || c == ':' || c == '=' || c == '@'
  }

  /** url.PathEscape. */
  function PathEscape(s: Text): Text {
    if s == [] then []
    else
      (if PathSafe(s[0]) then [s[0]]
       else ['%', Escaping.HexDigit(s[0] as int / 16), Escaping.HexDigit(s[0] as int % 16)]) + PathEscape(s[1..])
  }

  /** url.PathUnescape; none on a malformed percent sign. */
  function PathUnescape(s: Text): Option<Text>
    decreases |s|
  {
    if s == [] then Some([])
    else if s[0] == '%' then
      if |s| < 3 || Escaping.HexValue(s[1]).None? || Escaping.HexValue(s[2]).None? then None
      else
        var rest := PathUnescape(s[3..]);
        if rest.None? then None
        else Some([(Escaping.HexValue(s[1]).value * 16 + Escaping.HexValue(s[2]).value) as char] + rest.value)
    else
      var rest := PathUnescape(s[1..]);
      if rest.None? then None else Some([s[0]] + rest.value)
  }

  lemma PathUnescapeByte(c: Byte, t: Text)
    requires PathUnescape(t).Some?
    ensures
      var head := if PathSafe(c) then [c] else ['%', Escaping.HexDigit(c as int / 16), Escaping.HexDigit(c as int % 16)];
      PathUnescape(head + t) == Some([c] + PathUnescape(t).value)
  {
    if PathSafe(c) {
      assert ([c] + t)[1..] == t;
    } else {
      var head := ['%', Escaping.HexDigit(c as int / 16), Escaping.HexDigit(c as int % 16)];
      assert (head + t)[3..] == t;
      Escaping.HexDigitUpper(c as int / 16);
      Escaping.HexDigitUpper(c as int % 16);
    }
  }

  /** A substituted value is the given one: unescaping inverts escaping. */
  lemma {:induction false} PathUnescapeEscape(s: Text)
    ensures PathUnescape(PathEscape(s)) == Some(s)
  {
    if s == [] {
    } else {
      PathUnescapeEscape(s[1..]);
      PathUnescapeByte(s[0], PathEscape(s[1..]));
      assert s == [s[0]] + s[1..];
    }
  }

  lemma {:induction false} EscapedIsBraceFree(s: Text)
    ensures BraceFree(PathEscape(s))
  {
    if s == [] {
    } else {
      EscapedIsBraceFree(s[1..]);
    }
  }

  function Placeholder(name: Text): Text {
    ['{'] + name + ['}']
  }

  /** resolvedPath, for one iteration order of the parameter map. */
  function Resolve(path: Text, params: map<Text, Text>, order: seq<Text>): Text
    requires forall i :: 0 <= i < |order| ==> order[i] in params
    decreases |order|
  {
    if order == [] then path
    else Resolve(ReplaceAll(path, Placeholder(order[0]), PathEscape(params[order[0]])), params, order[1..])
  }

  // ------------------------------------------------------------------ tokens

  datatype Token = Lit(c: Byte) | Open | Close | Hole(name: Text)

  function RenderToken(t: Token): Text {
    match t
    case Lit(c) => [c]
    case Open => ['{']
    case Close => ['}']
    case Hole(name) => Placeholder(name)
  }

  function Render(ts: seq<Token>): Text {
    if ts == [] then [] else RenderToken(ts[0]) + Render(ts[1..])
  }

  /** Position of the first brace, or the length. */
  function FirstBrace(s: Text): (i: nat)
    ensures i <= |s| && (i < |s| ==> Brace(s[i]))
    ensures forall j :: 0 <= j < i ==> !Brace(s[j])
  {
    if s == [] || Brace(s[0]) then 0 else 1 + FirstBrace(s[1..])
  }

  /** The first token: a hole is an opening brace whose next brace closes it. */
  function NextToken(s: Text): (t: Token)
    requires s != []
    ensures 0 < |RenderToken(t)| <= |s|
  {
    if s[0] == '}' then Close
    else if s[0] != '{' then Lit(s[0])
    else
      var i := FirstBrace(s[1..]);
      if i < |s| - 1 && s[i + 1] == '}' then Hole(s[1..i + 1]) else Open
  }

  function Lex(s: Text): seq<Token>
    decreases |s|
  {
    if s == [] then [] else [NextToken(s)] + Lex(s[|RenderToken(NextToken(s))|..])
  }

  predicate WellFormed(ts: seq<Token>) {
    forall i :: 0 <= i < |ts| ==>
      match ts[i]
      case Lit(c) => !Brace(c)
      case Hole(name) => BraceFree(name)
      case _ => true
  }

  lemma HolePrefix(s: Text, i: nat)
    requires i + 1 < |s| && s[0] == '{' && s[i + 1] == '}'
    ensures s[..i + 2] == Placeholder(s[1..i + 1])
  {
  }

  lemma NextTokenPrefix(s: Text)
    requires s != []
    ensures
      var w := RenderToken(NextToken(s));
      && s == w + s[|w|..]
      && (match NextToken(s) case Lit(c) => !Brace(c) case Hole(name) => BraceFree(name) case _ => true)
  {
    var t := NextToken(s);
    var w := RenderToken(t);
    if t.Hole? {
      var i := FirstBrace(s[1..]);
      HolePrefix(s, i);
      assert forall j :: 0 <= j < i ==> s[1..i + 1][j] == s[1..][j];
    } else {
      assert s[..1] == w;
    }
    assert s == s[..|w|] + s[|w|..];
  }

  /** Lexing loses nothing. */
  lemma {:induction false} RenderLex(s: Text)
    ensures Render(Lex(s)) == s
    ensures WellFormed(Lex(s))
    decreases |s|
  {
    if s == [] {
    } else {
      NextTokenPrefix(s);
      var rest := s[|RenderToken(NextToken(s))|..];
      RenderLex(rest);
      assert Lex(s)[1..] == Lex(rest);
    }
  }

  // ------------------------------------------------------------ substitution

  function Lits(v: Text): seq<Token> {
    seq(|v|, i requires 0 <= i < |v| => Lit(v[i]))
  }

  function SubstToken(t: Token, m: map<Text, Text>): seq<Token> {
    if t.Hole? && t.name in m then Lits(m[t.name]) else [t]
  }

  /** Simultaneous substitution of every known hole. */
  function Subst(ts: seq<Token>, m: map<Text, Text>): seq<Token> {
    if ts == [] then [] else SubstToken(ts[0], m) + Subst(ts[1..], m)
  }

  function Escaped(params: map<Text, Text>): map<Text, Text> {
    map k | k in params :: PathEscape(params[k])
  }

  /** The one-pass meaning of a template. */
  function Simultaneous(path: Text, params: map<Text, Text>): Text {
    Render(Subst(Lex(path), Escaped(params)))
  }

  lemma {:induction false} RenderConcat(a: seq<Token>, b: seq<Token>)
    ensures Render(a + b) == Render(a) + Render(b)
  {
    if a == [] {
      assert a + b == b;
    } else {
      assert (a + b)[1..] == a[1..] + b;
      RenderConcat(a[1..], b);
      ConcatAssociates(RenderToken(a[0]), Render(a[1..]), Render(b));
    }
  }

  lemma {:induction false} RenderLits(v: Text)
    ensures Render(Lits(v)) == v
  {
    if v == [] {
    } else {
      assert Lits(v)[1..] == Lits(v[1..]);
      RenderLits(v[1..]);
      assert v == [v[0]] + v[1..];
    }
  }

  lemma {:induction false} SubstConcat(a: seq<Token>, b: seq<Token>, m: map<Text, Text>)
    ensures Subst(a + b, m) == Subst(a, m) + Subst(b, m)
  {
    if a == [] {
      assert a + b == b;
    } else {
      assert (a + b)[1..] == a[1..] + b;
      SubstConcat(a[1..], b, m);
      ConcatAssociates(SubstToken(a[0], m), Subst(a[1..], m), Subst(b, m));
    }
  }

  // --------------------------------------------- one replacement, in tokens

  /** No opening brace is followed by this name and a closing brace. */
  predicate Unmatched(ts: seq<Token>, name: Text) {
    if ts == [] then true
    else Unmatched(ts[1..], name) && (ts[0].Open? ==> !(name + ['}'] <= Render(ts[1..])))
  }

  /** Text without an opening brace is passed over. */
  lemma {:induction false} SkipPlain(a: Text, b: Text, w: Text, v: Text)
    requires w != [] && w[0] == '{'
    requires '{' !in a
    ensures ReplaceAll(a + b, w, v) == a + ReplaceAll(b, w, v)
  {
    if a == [] {
      assert a + b == b;
    } else {
      assert (a + b)[0] == a[0] && (a + b)[1..] == a[1..] + b;
      SkipPlain(a[1..], b, w, v);
      ConcatAssociates([a[0]], a[1..], ReplaceAll(b, w, v));
      assert a == [a[0]] + a[1..];
    }
  }

  lemma FirstBraceAfter(name: Text, rest: Text)
    requires BraceFree(name)
    ensures FirstBrace(name + (['}'] + rest)) == |name|
  {
    var s := name + (['}'] + rest);
    assert s[|name|] == '}';
    assert forall j :: 0 <= j < |name| ==> s[j] == name[j];
  }

  /** The text after a placeholder's opening brace. */
  lemma PlaceholderTail(name: Text, rest: Text)
    ensures (Placeholder(name) + rest)[1..] == name + (['}'] + rest)
  {
  }

  lemma SamePlaceholder(name: Text, other: Text, rest: Text)
    requires BraceFree(name) && BraceFree(other)
    requires Placeholder(name) <= Placeholder(other) + rest
    ensures name == other
  {
    var p, q := Placeholder(name), Placeholder(other) + rest;
    var rest' := q[|p|..];
    assert q == p + rest';
    PlaceholderTail(other, rest);
    PlaceholderTail(name, rest');
    FirstBraceAfter(other, rest);
    FirstBraceAfter(name, rest');
    assert q[1..][..|name|] == name && q[1..][..|other|] == other;
  }

  lemma ReplaceHole(name: Text, v: Text, other: Text, rest: Text)
    requires BraceFree(name) && BraceFree(other)
    ensures ReplaceAll(Placeholder(other) + rest, Placeholder(name), v) ==
            (if name == other then v else Placeholder(other)) + ReplaceAll(rest, Placeholder(name), v)
  {
    var w, s := Placeholder(name), Placeholder(other) + rest;
    if name == other {
      assert s[|w|..] == rest && w <= s;
    } else {
      if w <= s {
        SamePlaceholder(name, other, rest);
      }
      var tail := other + ['}'];
      assert s[0] == '{' && s[1..] == tail + rest;
      SkipPlain(tail, rest, w, v);
      ConcatAssociates(['{'], tail, ReplaceAll(rest, w, v));
      ConcatAssociates(['{'], other, ['}']);
    }
  }

  lemma ReplaceOpen(name: Text, v: Text, rest: Text)
    requires !(name + ['}'] <= rest)
    ensures ReplaceAll(['{'] + rest, Placeholder(name), v) == ['{'] + ReplaceAll(rest, Placeholder(name), v)
  {
    assert (['{'] + rest)[1..] == rest;
    if Placeholder(name) <= ['{'] + rest {
      OpenPrefix(name, rest);
    }
  }

  lemma OpenPrefix(name: Text, rest: Text)
    requires Placeholder(name) <= ['{'] + rest
    ensures name + ['}'] <= rest
  {
    var w, s := Placeholder(name), ['{'] + rest;
    assert s[..|w|] == w;
    assert s[1..|w|] == rest[..|w| - 1] && w[1..] == name + ['}'];
  }

  /** Replacing a placeholder in the text is substituting its holes. */
  lemma {:induction false} ReplaceIsSubst(ts: seq<Token>, name: Text, v: Text)
    requires WellFormed(ts) && BraceFree(name) && Unmatched(ts, name)
    ensures ReplaceAll(Render(ts), Placeholder(name), v) == Render(Subst(ts, map[name := v]))
  {
    if ts == [] {
    } else {
      var t, rest := ts[0], Render(ts[1..]);
      ReplaceIsSubst(ts[1..], name, v);
      RenderConcat(SubstToken(t, map[name := v]), Subst(ts[1..], map[name := v]));
      match t {
        case Hole(other) =>
          ReplaceHole(name, v, other, rest);
          RenderLits(v);
        case Open => ReplaceOpen(name, v, rest);
        case Lit(c) => SkipPlain([c], rest, Placeholder(name), v);
        case Close => SkipPlain(['}'], rest, Placeholder(name), v);
      }
      assert [t][1..] == [];
    }
  }

  // ------------------------------------------------- when the order is harmless

  /** The next brace outside holes is a closing one. */
  predicate ClosesFirst(ts: seq<Token>) {
    ts != [] && (ts[0].Close? || ((ts[0].Lit? || ts[0].Hole?) && ClosesFirst(ts[1..])))
  }

  /** Plain text up to a closing brace. */
  predicate PlainThenClose(ts: seq<Token>) {
    ts != [] && (ts[0].Close? || (ts[0].Lit? && PlainThenClose(ts[1..])))
  }

  /** Filling holes cannot complete a new placeholder: no opening brace outside
      holes is followed, holes aside, by a closing one. */
  predicate Flat(ts: seq<Token>) {
    ts == [] || (Flat(ts[1..]) && (ts[0].Open? ==> !ClosesFirst(ts[1..])))
  }

  lemma {:induction false} NameNeedsClose(ts: seq<Token>, name: Text)
    requires WellFormed(ts) && BraceFree(name) && name + ['}'] <= Render(ts)
    ensures PlainThenClose(ts) && ClosesFirst(ts)
  {
    var w, r := name + ['}'], Render(ts);
    assert ts != [];
    assert w[0] == r[0] == RenderToken(ts[0])[0];
    if ts[0].Lit? {
      assert name != [] && name[0] == ts[0].c;
      assert r[1..] == Render(ts[1..]) && w[1..] == name[1..] + ['}'];
      assert w == r[..|w|];
      assert name[1..] + ['}'] == Render(ts[1..])[..|name|];
      NameNeedsClose(ts[1..], name[1..]);
    } else if name != [] {
      assert !Brace(name[0]);
    }
  }

  lemma {:induction false} FlatUnmatched(ts: seq<Token>, name: Text)
    requires WellFormed(ts) && BraceFree(name) && Flat(ts)
    ensures Unmatched(ts, name)
  {
    if ts == [] {
    } else {
      FlatUnmatched(ts[1..], name);
      if ts[0].Open? && name + ['}'] <= Render(ts[1..]) {
        NameNeedsClose(ts[1..], name);
      }
    }
  }

  lemma {:induction false} LitsKeep(v: Text, ts: seq<Token>)
    ensures ClosesFirst(Lits(v) + ts) <==> ClosesFirst(ts)
    ensures Flat(Lits(v) + ts) <==> Flat(ts)
  {
    if v == [] {
      assert Lits(v) + ts == ts;
    } else {
      assert (Lits(v) + ts)[1..] == Lits(v[1..]) + ts;
      LitsKeep(v[1..], ts);
    }
  }

  /** Substitution fills holes and changes nothing about the braces around them. */
  lemma {:induction false} SubstKeeps(ts: seq<Token>, m: map<Text, Text>)
    requires WellFormed(ts) && forall k :: k in m ==> BraceFree(m[k])
    ensures WellFormed(Subst(ts, m))
    ensures ClosesFirst(Subst(ts, m)) <==> ClosesFirst(ts)
    ensures Flat(Subst(ts, m)) <==> Flat(ts)
  {
    if ts == [] {
    } else {
      SubstKeeps(ts[1..], m);
      var rest := Subst(ts[1..], m);
      if ts[0].Hole? && ts[0].name in m {
        LitsKeep(m[ts[0].name], rest);
      } else {
        assert ([ts[0]] + rest)[1..] == rest;
      }
    }
  }

  lemma {:induction false} SubstLits(v: Text, m: map<Text, Text>)
    ensures Subst(Lits(v), m) == Lits(v)
  {
    if v == [] {
    } else {
      assert Lits(v)[1..] == Lits(v[1..]);
      SubstLits(v[1..], m);
      assert Lits(v) == [Lit(v[0])] + Lits(v[1..]);
    }
  }

  lemma {:induction false} SubstThen(ts: seq<Token>, m: map<Text, Text>, name: Text, v: Text)
    requires name !in m
    ensures Subst(Subst(ts, m), map[name := v]) == Subst(ts, m[name := v])
  {
    if ts == [] {
    } else {
      SubstThen(ts[1..], m, name, v);
      SubstConcat(SubstToken(ts[0], m), Subst(ts[1..], m), map[name := v]);
      if ts[0].Hole? && ts[0].name in m {
        SubstLits(m[ts[0].name], map[name := v]);
      } else {
        assert [ts[0]][1..] == [];
        assert SubstToken(ts[0], map[name := v]) + [] == SubstToken(ts[0], map[name := v]);
      }
    }
  }

  /** The substitution built up by replacing names one after another. */
  function Extend(m: map<Text, Text>, params: map<Text, Text>, order: seq<Text>): map<Text, Text>
    requires forall i :: 0 <= i < |order| ==> order[i] in params
    decreases |order|
  {
    if order == [] then m else Extend(m[order[0] := PathEscape(params[order[0]])], params, order[1..])
  }

  ghost predicate Distinct(order: seq<Text>) {
    forall i, j :: 0 <= i < j < |order| ==> order[i] != order[j]
  }

  predicate PlainNames(names: seq<Text>) {
    forall i :: 0 <= i < |names| ==> BraceFree(names[i])
  }

  predicate PlainValues(m: map<Text, Text>) {
    forall k :: k in m ==> BraceFree(m[k])
  }

  /** The sequential replacement, when no step ever meets a completed placeholder. */
  lemma {:induction false} FlatResolve(ts: seq<Token>, m: map<Text, Text>, params: map<Text, Text>, order: seq<Text>)
    requires WellFormed(ts) && Flat(ts) && PlainValues(m)
    requires forall i :: 0 <= i < |order| ==> order[i] in params && order[i] !in m
    requires Distinct(order) && PlainNames(order)
    ensures Resolve(Render(Subst(ts, m)), params, order) == Render(Subst(ts, Extend(m, params, order)))
    decreases |order|
  {
    if order == [] {
    } else {
      var name := order[0];
      var v := PathEscape(params[name]);
      EscapedIsBraceFree(params[name]);
      SubstKeeps(ts, m);
      FlatUnmatched(Subst(ts, m), name);
      ReplaceIsSubst(Subst(ts, m), name, v);
      SubstThen(ts, m, name, v);
      FlatResolve(ts, m[name := v], params, order[1..]);
    }
  }

  lemma {:induction false} ExtendMeaning(m: map<Text, Text>, params: map<Text, Text>, order: seq<Text>)
    requires forall i :: 0 <= i < |order| ==> order[i] in params
    requires Distinct(order)
    ensures forall k :: k in Extend(m, params, order) <==> k in m || k in order
    ensures forall k :: k in order ==> Extend(m, params, order)[k] == PathEscape(params[k])
    ensures forall k :: k in m && k !in order ==> Extend(m, params, order)[k] == m[k]
    decreases |order|
  {
    if order == [] {
    } else {
      ExtendMeaning(m[order[0] := PathEscape(params[order[0]])], params, order[1..]);
      assert order == [order[0]] + order[1..];
    }
  }

  /** One iteration order of the parameter map. */
  ghost predicate Lists(order: seq<Text>, params: map<Text, Text>) {
    && (forall i :: 0 <= i < |order| ==> order[i] in params)
    && (forall k :: k in params ==> k in order)
    && Distinct(order)
  }

  lemma {:induction false} SubstNothing(ts: seq<Token>)
    ensures Subst(ts, map[]) == ts
  {
    if ts == [] {
    } else {
      SubstNothing(ts[1..]);
    }
  }

  /** Every iteration order gives the simultaneous substitution, for a template
      in which filling holes cannot complete a placeholder. */
  lemma OrderIndependent(path: Text, params: map<Text, Text>, order: seq<Text>)
    requires Lists(order, params) && PlainNames(order) && Flat(Lex(path))
    ensures Resolve(path, params, order) == Simultaneous(path, params)
  {
    var ts := Lex(path);
    RenderLex(path);
    SubstNothing(ts);
    FlatResolve(ts, map[], params, order);
    ExtendMeaning(map[], params, order);
    assert Extend(map[], params, order) == Escaped(params);
  }
}
