/** Header names and the two containers that hold header values: the
    `http.Header` map and the ordered-header object. */
module Headers {
  import opened Base
  import opened Sorting

  /** A request value with its disclosure tag; the zero tag is private. */
  datatype Value = Value(raw: Text, public: bool)

  function Private(raw: Text): Value {
    Value(raw, false)
  }

  /** A tagged value under a name: a header, query or form occurrence. */
  type Occurrence = Named<Value>

  // ---------------------------------------------------------------- names

  const CONTENT_TYPE: Text := "Content-Type"
  const AUTHORIZATION: Text := "Authorization"
  const PROXY_AUTHORIZATION: Text := "Proxy-Authorization"
  const COOKIE: Text := "Cookie"

  function Lower(c: Byte): Byte {
    if 'A' <= c <= 'Z' then (c as int + 32) as char else c
  }

  function Upper(c: Byte): Byte {
    if 'a' <= c <= 'z' then (c as int - 32) as char else c
  }

  /** The ASCII case folding behind strings.ToLower and strings.EqualFold. */
  function Fold(s: Text): Text {
    seq(|s|, i requires 0 <= i < |s| => Lower(s[i]))
  }

  predicate EqualFold(a: Text, b: Text) {
    Fold(a) == Fold(b)
  }

  predicate IsTokenByte(c: Byte) {
    || 'a' <= c <= 'z' || 'A' <= c <= 'Z' || '0' <= c <= '9'
    || c in "!#$%&'*+-.^_`|~"
  }

  /** A field name as section 5.1 of RFC 9110 defines it. */
  predicate IsToken(s: Text) {
    forall i :: 0 <= i < |s| ==> IsTokenByte(s[i])
  }

  function CanonicalByte(s: Text, i: nat): Byte
    requires i < |s|
  {
    if i == 0 || s[i - 1] == '-' then Upper(s[i]) else Lower(s[i])
  }

  /** http.CanonicalHeaderKey: names with a byte outside the token set are
      returned as they are. */
  function Canonical(s: Text): Text {
    if IsToken(s) then
      seq(|s|, i requires 0 <= i < |s| => CanonicalByte(s, i))
    else s
  }

  predicate IsPseudo(name: Text) {
    |name| > 0 && name[0] == ':'
  }

  lemma CanonicalKeepsFold(s: Text)
    ensures EqualFold(Canonical(s), s)
    ensures IsToken(s) ==> IsToken(Canonical(s))
  {
  }

  predicate StartsWord(s: Text, i: nat)
    requires i < |s|
  {
    i == 0 || s[i - 1] == '-'
  }

  /** The canonical spelling of a token: capitals at the start of each word and
      nowhere else, and otherwise the same name. Other names stay as they are. */
  lemma CanonicalSpelling(s: Text)
    ensures
      var c := Canonical(s);
      && (!IsToken(s) ==> c == s)
      && (IsToken(s) ==>
            && EqualFold(c, s) && |c| == |s|
            && forall i :: 0 <= i < |c| ==>
                 if StartsWord(c, i) then !('a' <= c[i] <= 'z') else !('A' <= c[i] <= 'Z'))
  {
    CanonicalKeepsFold(s);
    if IsToken(s) {
      forall i | 0 <= i < |s|
        ensures StartsWord(Canonical(s), i) <==> StartsWord(s, i)
      {
      }
    }
  }

  /** It is settled: spelling a name again changes nothing. */
  lemma CanonicalSettled(s: Text)
    ensures Canonical(Canonical(s)) == Canonical(s)
  {
    if IsToken(s) {
      CanonicalKeepsFold(s);
      FoldDeterminesCanonical(s, Canonical(s));
    }
  }

  lemma LowerDecides(x: Byte, y: Byte)
    requires Lower(x) == Lower(y)
    ensures IsTokenByte(x) <==> IsTokenByte(y)
    ensures Upper(x) == Upper(y) && (x == '-' <==> y == '-')
  {
  }

  lemma FoldPointwise(a: Text, b: Text)
    requires EqualFold(a, b)
    ensures |a| == |b|
    ensures forall i :: 0 <= i < |a| ==> Lower(a[i]) == Lower(b[i])
  {
    assert |Fold(a)| == |a| && |Fold(b)| == |b|;
    forall i | 0 <= i < |a|
      ensures Lower(a[i]) == Lower(b[i])
    {
      assert Fold(a)[i] == Lower(a[i]) && Fold(b)[i] == Lower(b[i]);
    }
  }

  lemma FoldKeepsToken(a: Text, b: Text)
    requires IsToken(a) && EqualFold(a, b)
    ensures IsToken(b)
  {
    FoldPointwise(a, b);
    forall i | 0 <= i < |b|
      ensures IsTokenByte(b[i])
    {
      LowerDecides(a[i], b[i]);
      assert IsTokenByte(a[i]);
    }
  }

  /** Names equal up to case share one canonical key when one is a token. */
  lemma FoldDeterminesCanonical(a: Text, b: Text)
    requires IsToken(a) && EqualFold(a, b)
    ensures IsToken(b) && Canonical(a) == Canonical(b)
  {
    FoldKeepsToken(a, b);
    FoldPointwise(a, b);
    forall i | 0 <= i < |b|
      ensures Canonical(a)[i] == Canonical(b)[i]
    {
      LowerDecides(a[i], b[i]);
      if i > 0 {
        LowerDecides(a[i - 1], b[i - 1]);
      }
    }
  }

  lemma CanonicalEqualsIffFold(a: Text, b: Text)
    requires IsToken(a)
    ensures Canonical(a) == Canonical(b) <==> EqualFold(a, b)
  {
    CanonicalKeepsFold(a);
    CanonicalKeepsFold(b);
    if EqualFold(a, b) {
      FoldDeterminesCanonical(a, b);
    }
  }
}
