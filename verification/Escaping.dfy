/** Query-component escaping and the query string (section 2.1 of RFC 3986, as
    net/url implements it for application/x-www-form-urlencoded). */
module Escaping {
  import opened Base
  import opened Sorting

  type Pair = Named<Text>

  predicate Unreserved(c: Byte) {
    || 'a' <= c <= 'z' || 'A' <= c <= 'Z' || '0' <= c <= '9'
    || c == '-' || c == '_' || c == '.' || c == '~'
  }

  function HexDigit(n: nat): Byte
    requires n < 16
  {
    if n < 10 then (n + 48) as char else (n + 55) as char
  }

  function HexValue(c: Byte): (n: Option<nat>)
    ensures n.Some? ==> n.value < 16
  {
    if '0' <= c <= '9' then Some(c as int - 48)
    else if 'A' <= c <= 'F' then Some(c as int - 55)
    else if 'a' <= c <= 'f' then Some(c as int - 87)
    else None
  }

  function EscapeByte(c: Byte): Text {
    if Unreserved(c) then [c]
    else if c == ' ' then ['+']
    else ['%', HexDigit(c as int / 16), HexDigit(c as int % 16)]
  }

  /** url.QueryEscape. */
  function Escape(s: Text): Text {
    if s == [] then [] else EscapeByte(s[0]) + Escape(s[1..])
  }

  /** url.QueryUnescape; none on a malformed percent sign. */
  function Unescape(s: Text): Option<Text>
    decreases |s|
  {
    if s == [] then Some([])
    else if s[0] == '%' then
      if |s| < 3 || HexValue(s[1]).None? || HexValue(s[2]).None? then None
      else
        var rest := Unescape(s[3..]);
        if rest.None? then None
        else Some([(HexValue(s[1]).value * 16 + HexValue(s[2]).value) as char] + rest.value)
    else
      var rest := Unescape(s[1..]);
      if rest.None? then None else Some([if s[0] == '+' then ' ' else s[0]] + rest.value)
  }

  lemma UnescapeByte(c: Byte, t: Text)
    requires Unescape(t).Some?
    ensures Unescape(EscapeByte(c) + t) == Some([c] + Unescape(t).value)
  {
    var s := EscapeByte(c) + t;
    if Unreserved(c) || c == ' ' {
      assert s[1..] == t;
    } else {
      assert s[3..] == t;
      assert HexValue(HexDigit(c as int / 16)) == Some(c as int / 16);
      assert HexValue(HexDigit(c as int % 16)) == Some(c as int % 16);
    }
  }

  /** Unescaping inverts escaping, for every byte string. */
  lemma {:induction false} UnescapeEscape(s: Text)
    ensures Unescape(Escape(s)) == Some(s)
  {
    if s == [] {
    } else {
      UnescapeEscape(s[1..]);
      UnescapeByte(s[0], Escape(s[1..]));
      assert s == [s[0]] + s[1..];
    }
  }

  /** Escaping works byte by byte. */
  lemma {:induction false} EscapeConcat(a: Text, b: Text)
    ensures Escape(a + b) == Escape(a) + Escape(b)
  {
    if a == [] {
      assert a + b == b;
    } else {
      assert (a + b)[0] == a[0] && (a + b)[1..] == a[1..] + b;
      EscapeConcat(a[1..], b);
    }
  }

  /** Letters, digits and "-_.~" stay, a space becomes a plus sign, and any other
      byte a percent sign and its value in two upper-case hexadecimal digits. */
  lemma EscapeSingle(c: Byte)
    ensures
      var e := Escape([c]);
      if 'a' <= c <= 'z' || 'A' <= c <= 'Z' || '0' <= c <= '9' || c in "-_.~" then e == [c]
      else if c == ' ' then e == "+"
      else
        && |e| == 3 && e[0] == '%' && e[1] in "0123456789ABCDEF" && e[2] in "0123456789ABCDEF"
        && HexValue(e[1]).Some? && HexValue(e[2]).Some?
        && HexValue(e[1]).value * 16 + HexValue(e[2]).value == c as int
  {
    assert [c][1..] == [];
    HexDigitUpper(c as int / 16);
    HexDigitUpper(c as int % 16);
  }

  lemma HexDigitUpper(n: nat)
    requires n < 16
    ensures HexDigit(n) in "0123456789ABCDEF" && HexValue(HexDigit(n)) == Some(n)
  {
    assert "0123456789ABCDEF"[n] == HexDigit(n);
  }

  /** A byte that can never appear in an escaped component. */
  predicate Delimiter(c: Byte) {
    c == '&' || c == '=' || c == ';' || c == '#'
  }

  lemma {:induction false} EscapedHasNoDelimiter(s: Text, i: nat)
    requires i < |Escape(s)|
    ensures !Delimiter(Escape(s)[i])
  {
    var head := EscapeByte(s[0]);
    if i >= |head| {
      EscapedHasNoDelimiter(s[1..], i - |head|);
    }
  }

  // ------------------------------------------------------------ query strings

  /** One non-empty `name=value` piece; none when it is malformed. */
  function ParsePiece(piece: Text): Option<Pair> {
    if ';' in piece then None
    else
      var i := IndexOf(piece, '=');
      var name := Unescape(piece[..i]);
      var value := Unescape(if i < |piece| then piece[i + 1..] else []);
      if name.Some? && value.Some? then Some(Named(name.value, value.value)) else None
  }

  datatype Parsed = Parsed(pairs: seq<Pair>, ok: bool)

  /** url.ParseQuery: malformed pieces are reported and skipped. */
  function ParseQuery(q: Text): Parsed
    decreases |q|
  {
    if q == [] then Parsed([], true)
    else
      var i := IndexOf(q, '&');
      var rest := ParseQuery(if i < |q| then q[i + 1..] else []);
      if i == 0 then rest
      else
        var pair := ParsePiece(q[..i]);
        if pair.Some? then Parsed([pair.value] + rest.pairs, rest.ok) else Parsed(rest.pairs, false)
  }

  function EncodePair(p: Pair): Text {
    Escape(p.name) + ['='] + Escape(p.value)
  }

  function JoinPairs(ps: seq<Pair>): Text {
    if ps == [] then []
    else if |ps| == 1 then EncodePair(ps[0])
    else EncodePair(ps[0]) + (['&'] + JoinPairs(ps[1..]))
  }

  lemma CutFirst(a: Text, c: Byte, b: Text)
    requires forall j :: 0 <= j < |a| ==> a[j] != c
    ensures IndexOf(a + ([c] + b), c) == |a|
    ensures IndexOf(a, c) == |a|
  {
    var s := a + ([c] + b);
    assert s[|a|] == c;
    assert forall j :: 0 <= j < |a| ==> s[j] == a[j];
  }

  predicate Clean(s: Text) {
    forall i :: 0 <= i < |s| ==> !Delimiter(s[i])
  }

  lemma EscapedClean(s: Text)
    ensures Clean(Escape(s))
  {
    forall i | 0 <= i < |Escape(s)| ensures !Delimiter(Escape(s)[i]) { EscapedHasNoDelimiter(s, i); }
  }

  /** A piece is read back from its two escaped halves. */
  lemma PieceFromHalves(a: Text, b: Text)
    requires Clean(a) && Clean(b)
    ensures
      var s := a + (['='] + b);
      && ';' !in s && '&' !in s && s != []
      && IndexOf(s, '=') == |a| && s[..|a|] == a && s[|a| + 1..] == b
  {
    CutFirst(a, '=', b);
  }

  lemma PieceRoundTrip(p: Pair)
    ensures ParsePiece(EncodePair(p)) == Some(p)
    ensures '&' !in EncodePair(p) && EncodePair(p) != []
  {
    var a, b := Escape(p.name), Escape(p.value);
    EscapedClean(p.name);
    EscapedClean(p.value);
    ConcatAssociates(a, ['='], b);
    PieceFromHalves(a, b);
    UnescapeEscape(p.name);
    UnescapeEscape(p.value);
  }

  lemma ParseFirst(piece: Text, rest: Text)
    requires piece != [] && '&' !in piece && ParsePiece(piece).Some?
    ensures ParseQuery(piece + (['&'] + rest)) ==
            Parsed([ParsePiece(piece).value] + ParseQuery(rest).pairs, ParseQuery(rest).ok)
  {
    var q := piece + (['&'] + rest);
    CutFirst(piece, '&', rest);
    assert q[..|piece|] == piece && q[|piece| + 1..] == rest;
  }

  lemma ParseOnly(piece: Text)
    requires piece != [] && '&' !in piece && ParsePiece(piece).Some?
    ensures ParseQuery(piece) == Parsed([ParsePiece(piece).value], true)
  {
    CutFirst(piece, '&', []);
    assert piece[..|piece|] == piece;
  }

  /** Parsing inverts joining, for every list of pairs. */
  lemma {:induction false} ParseJoin(ps: seq<Pair>)
    ensures ParseQuery(JoinPairs(ps)) == Parsed(ps, true)
  {
    if ps == [] {
    } else {
      PieceRoundTrip(ps[0]);
      if |ps| == 1 {
        ParseOnly(EncodePair(ps[0]));
      } else {
        ParseJoin(ps[1..]);
        ParseFirst(EncodePair(ps[0]), JoinPairs(ps[1..]));
        assert ps == [ps[0]] + ps[1..];
      }
    }
  }

  // ------------------------------------------------------------- url.Values

  type Values = map<Text, seq<Text>>

  function Get(m: Values, name: Text): seq<Text> {
    if name in m then m[name] else []
  }

  predicate NonEmpty(m: Values) {
    forall k :: k in m ==> m[k] != []
  }

  /** Values.Add for every pair in order. */
  function Group(m: Values, ps: seq<Pair>): Values
    decreases |ps|
  {
    if ps == [] then m else Group(m[ps[0].name := Get(m, ps[0].name) + [ps[0].value]], ps[1..])
  }

  lemma {:induction false} GroupMeaning(m: Values, ps: seq<Pair>, name: Text)
    ensures Get(Group(m, ps), name) == Get(m, name) + ValuesFor(ps, name)
    ensures NonEmpty(m) ==> NonEmpty(Group(m, ps))
    decreases |ps|
  {
    if ps == [] {
    } else {
      var next := m[ps[0].name := Get(m, ps[0].name) + [ps[0].value]];
      GroupMeaning(next, ps[1..], name);
      ConcatAssociates(Get(m, name), if ps[0].name == name then [ps[0].value] else [], ValuesFor(ps[1..], name));
    }
  }

  function PairsOf(name: Text, values: seq<Text>): seq<Pair> {
    if values == [] then [] else [Named(name, values[0])] + PairsOf(name, values[1..])
  }

  function Flatten(m: Values, keys: seq<Text>): seq<Pair> {
    if keys == [] then [] else PairsOf(keys[0], Get(m, keys[0])) + Flatten(m, keys[1..])
  }

  /** url.Values.Encode. */
  function Encode(m: Values): Text {
    JoinPairs(Flatten(m, SortedKeys(m.Keys)))
  }

  lemma {:induction false} PairsOfValues(key: Text, values: seq<Text>, name: Text)
    ensures ValuesFor(PairsOf(key, values), name) == if key == name then values else []
    decreases |values|
  {
    if values == [] {
    } else {
      PairsOfValues(key, values[1..], name);
      assert PairsOf(key, values)[1..] == PairsOf(key, values[1..]);
    }
  }

  lemma {:induction false} FlattenAbsent(m: Values, keys: seq<Text>, name: Text)
    requires name !in keys
    ensures ValuesFor(Flatten(m, keys), name) == []
  {
    if keys == [] {
    } else {
      FlattenAbsent(m, keys[1..], name);
      PairsOfValues(keys[0], Get(m, keys[0]), name);
      ValuesForConcat(PairsOf(keys[0], Get(m, keys[0])), Flatten(m, keys[1..]), name);
    }
  }

  lemma {:induction false} FlattenValues(m: Values, keys: seq<Text>, name: Text)
    requires SortedNames(keys) && name in keys
    ensures ValuesFor(Flatten(m, keys), name) == Get(m, name)
  {
    var key, rest := keys[0], keys[1..];
    PairsOfValues(key, Get(m, key), name);
    ValuesForConcat(PairsOf(key, Get(m, key)), Flatten(m, rest), name);
    if key == name {
      assert name !in rest;
      FlattenAbsent(m, rest, name);
    } else {
      FlattenValues(m, rest, name);
    }
  }

  /** What the encoded query holds for each name, and that it is sorted. */
  lemma EncodedValues(m: Values, name: Text)
    ensures ValuesFor(Flatten(m, SortedKeys(m.Keys)), name) == Get(m, name)
  {
    SortedKeysMeaning(m.Keys);
    if name in m {
      FlattenValues(m, SortedKeys(m.Keys), name);
    } else {
      FlattenAbsent(m, SortedKeys(m.Keys), name);
    }
  }

  /** URL.Query: parse and group, dropping malformed pieces. */
  function Query(raw: Text): Values {
    Group(map[], ParseQuery(raw).pairs)
  }

  /** Parsing an encoded value set gives every name its values back. */
  lemma QueryEncode(m: Values, name: Text)
    ensures Get(Query(Encode(m)), name) == Get(m, name)
    ensures ParseQuery(Encode(m)).ok
  {
    var ps := Flatten(m, SortedKeys(m.Keys));
    ParseJoin(ps);
    GroupMeaning(map[], ps, name);
    EncodedValues(m, name);
  }
}
