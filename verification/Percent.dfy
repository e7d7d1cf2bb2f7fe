/** Percent escapes in a text with gaps: when every filling is well escaped, when
    none is, and when it depends on the filling (section 2.1 of RFC 3986). */
module Percent {
  import opened Base
  import opened Masking
  import PathTemplate
  import E = Escaping

  // ------------------------------------------------------------ known texts

  predicate IsHex(c: Byte) {
    E.HexValue(c).Some?
  }

  /** The text is well escaped when `due` hex digits of an escape are still due. */
  predicate WellFrom(x: Text, due: nat)
    decreases |x|
  {
    if x == [] then due == 0
    else if due == 0 then WellFrom(x[1..], if x[0] == '%' then 2 else 0)
    else IsHex(x[0]) && WellFrom(x[1..], due - 1)
  }

  /** Every percent sign starts two hex digits: what url.Parse and QueryUnescape
      demand. */
  predicate WellEscaped(x: Text) {
    WellFrom(x, 0)
  }

  lemma {:induction false} WellConcat(a: Text, b: Text, due: nat)
    requires WellFrom(a, due)
    ensures WellFrom(a + b, due) <==> WellFrom(b, 0)
    decreases |a|
  {
    if a == [] {
      assert a + b == b;
    } else {
      assert (a + b)[0] == a[0] && (a + b)[1..] == a[1..] + b;
      WellConcat(a[1..], b, if due > 0 then due - 1 else if a[0] == '%' then 2 else 0);
    }
  }

  /** Digits that are no longer due are plain text. */
  lemma {:induction false} WellAnyway(x: Text, due: nat)
    requires WellFrom(x, due)
    ensures WellFrom(x, 0)
    decreases |x|
  {
    if x == [] || due == 0 {
    } else {
      assert x[0] != '%';
      WellAnyway(x[1..], due - 1);
    }
  }

  lemma {:induction false} WellSuffix(a: Text, b: Text, due: nat)
    requires WellFrom(a + b, due)
    ensures WellFrom(b, 0)
    decreases |a|
  {
    if a == [] {
      assert a + b == b;
      WellAnyway(b, due);
    } else {
      assert (a + b)[0] == a[0] && (a + b)[1..] == a[1..] + b;
      WellSuffix(a[1..], b, if due > 0 then due - 1 else if a[0] == '%' then 2 else 0);
    }
  }

  /** One escape at the front of a text. */
  lemma EscapeAt(x: Text)
    requires x != [] && x[0] == '%'
    ensures WellEscaped(x) <==> |x| >= 3 && IsHex(x[1]) && IsHex(x[2]) && WellEscaped(x[3..])
  {
    var y := x[1..];
    assert WellFrom(x, 0) == WellFrom(y, 2);
    if |x| >= 2 {
      var z := y[1..];
      assert y[0] == x[1] && WellFrom(y, 2) == (IsHex(x[1]) && WellFrom(z, 1));
      if |x| >= 3 {
        assert z[0] == x[2] && z[1..] == x[3..];
      }
    }
  }

  lemma {:induction false} UnescapeWell(x: Text)
    ensures E.Unescape(x).Some? <==> WellEscaped(x)
    decreases |x|
  {
    if x == [] {
    } else if x[0] == '%' {
      EscapeAt(x);
      if |x| >= 3 {
        UnescapeWell(x[3..]);
      }
    } else {
      UnescapeWell(x[1..]);
    }
  }

  /** A text that path escaping can produce. */
  predicate Proper(x: Text) {
    WellEscaped(x) && forall i :: 0 <= i < |x| ==> PathTemplate.PathSafe(x[i]) || x[i] == '%'
  }

  lemma PlainByteWell(c: Byte)
    requires c != '%'
    ensures WellEscaped([c])
  {
    var rest := [c][1..];
    assert rest == [] && WellFrom(rest, 0);
    assert WellFrom([c], 0) == WellFrom(rest, 0);
  }

  lemma EscapedByteWell(c: Byte)
    ensures Proper(if PathTemplate.PathSafe(c) then [c] else ['%', E.HexDigit(c as int / 16), E.HexDigit(c as int % 16)])
  {
    if PathTemplate.PathSafe(c) {
      PlainByteWell(c);
    } else {
      var h, l := E.HexDigit(c as int / 16), E.HexDigit(c as int % 16);
      EscapeAt(['%', h, l]);
      assert ['%', h, l][3..] == [];
    }
  }

  lemma {:induction false} EscapedIsProper(x: Text)
    ensures Proper(PathTemplate.PathEscape(x))
  {
    if x == [] {
    } else {
      var c := x[0];
      var head := if PathTemplate.PathSafe(c) then [c] else ['%', E.HexDigit(c as int / 16), E.HexDigit(c as int % 16)];
      EscapedByteWell(c);
      EscapedIsProper(x[1..]);
      WellConcat(head, PathTemplate.PathEscape(x[1..]), 0);
    }
  }

  // ------------------------------------------------------------ texts with gaps

  /** Every gap is filled with a text that path escaping can produce. */
  predicate Properly(s: Masked, v: Text -> Text) {
    forall i :: 0 <= i < |s| && s[i].Gap? ==> Proper(v(s[i].name))
  }

  /** No gap stands inside an escape. */
  predicate Unbroken(s: Masked, due: nat)
    decreases |s|
  {
    if s == [] then true
    else match s[0]
      case Known(c) =>
        if due == 0 then Unbroken(s[1..], if c == '%' then 2 else 0) else IsHex(c) ==> Unbroken(s[1..], due - 1)
      case Gap(_) => due == 0 && Unbroken(s[1..], 0)
  }

  /** Unbroken, whether a text is well escaped does not depend on the gaps. */
  lemma {:induction false} UnbrokenSound(s: Masked, v: Text -> Text, due: nat)
    requires Unbroken(s, due) && Properly(s, v)
    ensures WellFrom(Fill(s, v), due) <==> WellFrom(Bare(s), due)
    decreases |s|
  {
    if s == [] {
    } else if s[0].Known? {
      FillHead(s, v);
      FillHead(s, Always([]));
      if due == 0 || IsHex(s[0].c) {
        UnbrokenSound(s[1..], v, if due > 0 then due - 1 else if s[0].c == '%' then 2 else 0);
      }
    } else {
      WellConcat(v(s[0].name), Fill(s[1..], v), 0);
      assert Bare(s) == [] + Bare(s[1..]) == Bare(s[1..]);
      UnbrokenSound(s[1..], v, 0);
    }
  }

  const DIGITS: Text := "41"

  lemma DigitsWell(rest: Text, due: nat)
    requires due <= 2 && WellFrom(rest, 0)
    ensures WellFrom(DIGITS + rest, due)
  {
    var x := DIGITS + rest;
    var y := x[1..];
    assert x[0] == '4' && y[0] == '1' && y[1..] == rest;
    assert IsHex('4') && IsHex('1') && '4' != '%';
    assert WellFrom(y, 0) && WellFrom(y, 1);
    if due == 0 {
      assert WellFrom(x, 0) == WellFrom(y, 0);
    } else if due == 1 {
      assert WellFrom(x, 1) == (IsHex(x[0]) && WellFrom(y, 0));
    } else {
      assert WellFrom(x, 2) == (IsHex(x[0]) && WellFrom(y, 1));
    }
  }

  /** If any filling is well escaped, so is the one by two hex digits: in any
      state of an escape it leaves none due. */
  lemma {:induction false} DigitsAreBest(s: Masked, v: Text -> Text, due: nat)
    requires due <= 2 && WellFrom(Fill(s, v), due)
    ensures WellFrom(Fill(s, Always(DIGITS)), due)
    decreases |s|
  {
    if s == [] {
    } else if s[0].Known? {
      FillHead(s, v);
      FillHead(s, Always(DIGITS));
      DigitsAreBest(s[1..], v, if due > 0 then due - 1 else if s[0].c == '%' then 2 else 0);
    } else {
      WellSuffix(v(s[0].name), Fill(s[1..], v), due);
      DigitsAreBest(s[1..], v, 0);
      DigitsWell(Fill(s[1..], Always(DIGITS)), due);
    }
  }

  /** A broken text that can be well escaped can also be malformed. */
  lemma {:induction false} BrokenTells(s: Masked, due: nat)
    requires !Unbroken(s, due) && due <= 2 && WellFrom(Fill(s, Always(DIGITS)), due)
    ensures !WellFrom(Fill(s, Always("z")), due)
    decreases |s|
  {
    var z := Always("z");
    if s[0].Known? {
      FillHead(s, z);
      FillHead(s, Always(DIGITS));
      BrokenTells(s[1..], if due > 0 then due - 1 else if s[0].c == '%' then 2 else 0);
    } else {
      var rest := Fill(s[1..], z);
      assert Fill(s, z) == "z" + rest && ("z" + rest)[0] == 'z' && ("z" + rest)[1..] == rest;
      if due == 0 {
        WellSuffix(DIGITS, Fill(s[1..], Always(DIGITS)), 0);
        BrokenTells(s[1..], 0);
      }
    }
  }

  /** Whether the gaps cannot matter: no filling is well escaped, or no gap stands
      inside an escape. */
  predicate EscapesSettled(s: Masked) {
    WellEscaped(Fill(s, Always(DIGITS))) ==> Unbroken(s, 0)
  }

  lemma SettledEscapes(s: Masked, v: Text -> Text)
    requires EscapesSettled(s) && Properly(s, v)
    ensures WellEscaped(Fill(s, v)) <==> WellEscaped(Fill(s, Always(DIGITS)))
  {
    if WellEscaped(Fill(s, Always(DIGITS))) {
      DigitsProper();
      UnbrokenSound(s, v, 0);
      UnbrokenSound(s, Always(DIGITS), 0);
    } else if WellEscaped(Fill(s, v)) {
      DigitsAreBest(s, v, 0);
    }
  }

  lemma DigitsProper()
    ensures Proper(DIGITS) && Proper("z")
  {
    assert DIGITS[1..] == "1" && "1"[1..] == [] && "z"[1..] == [];
  }
}
