/** Which texts url.Parse accepts, its checks of the host aside: no control byte,
    a plain userinfo, and well-escaped userinfo, path and fragment. For a text
    with gaps it is known exactly when the gaps cannot matter. */
module Legibility {
  import opened Base
  import opened UrlTrace
  import opened Masking
  import opened Percent
  import PathTemplate
  import E = Escaping

  // ------------------------------------------------------------ known texts

  predicate Printable(c: Byte) {
    c as int >= 0x20 && c as int != 0x7f
  }

  /** The bytes that validUserinfo lets pass. */
  predicate UserByte(c: Byte) {
    E.Unreserved(c) || c in ":!$&'()*+,;=%@"
  }

  predicate All(x: Text, ok: Byte -> bool) {
    forall i :: 0 <= i < |x| ==> ok(x[i])
  }

  function BeforeHash(raw: Text): Text {
    raw[..IndexAny(raw, "#")]
  }

  function AfterHash(raw: Text): Text {
    var i := IndexAny(raw, "#");
    if i < |raw| then raw[i + 1..] else []
  }

  /** The scheme is not missing, and nothing in the text is refused; an opaque
      rest is not looked at. */
  predicate Accepted(raw: Text) {
    var shape := ShapeOf(raw);
    && shape != Missing
    && All(BeforeHash(raw), Printable) && WellEscaped(AfterHash(raw))
    && All(Split(raw).userinfo, UserByte) && WellEscaped(Split(raw).userinfo)
    && (shape.rootless || WellEscaped(PathText(raw)))
  }

  // ------------------------------------------------------------ texts with gaps

  predicate KnownAll(s: Masked, ok: Byte -> bool) {
    forall i :: 0 <= i < |s| && s[i].Known? ==> ok(s[i].c)
  }

  ghost predicate Covers(ok: Byte -> bool) {
    forall c: Byte :: PathTemplate.PathSafe(c) || c == '%' ==> ok(c)
  }

  lemma AllConcat(a: Text, b: Text, ok: Byte -> bool)
    ensures All(a + b, ok) <==> All(a, ok) && All(b, ok)
  {
    assert forall i :: 0 <= i < |a| ==> (a + b)[i] == a[i];
    assert forall i :: 0 <= i < |b| ==> (a + b)[|a| + i] == b[i];
  }

  lemma ProperAll(x: Text, ok: Byte -> bool)
    requires Proper(x) && Covers(ok)
    ensures All(x, ok)
  {
  }

  lemma {:induction false} AllFilled(s: Masked, v: Text -> Text, ok: Byte -> bool)
    requires Properly(s, v) && Covers(ok)
    ensures All(Fill(s, v), ok) <==> KnownAll(s, ok)
  {
    if s == [] {
    } else {
      AllFilled(s[1..], v, ok);
      var head := FillPiece(s[0], v);
      AllConcat(head, Fill(s[1..], v), ok);
      if s[0].Gap? {
        ProperAll(head, ok);
      } else {
        assert All(head, ok) <==> ok(head[0]);
      }
      KnownHead(s, ok);
    }
  }

  lemma KnownHead(s: Masked, ok: Byte -> bool)
    requires s != []
    ensures KnownAll(s, ok) <==> (s[0].Known? ==> ok(s[0].c)) && KnownAll(s[1..], ok)
  {
    assert forall i :: 0 < i < |s| ==> s[i] == s[1..][i - 1];
  }

  lemma BytesCover()
    ensures Covers(Printable) && Covers(UserByte)
  {
  }

  lemma ProperFits(s: Masked, v: Text -> Text)
    requires Properly(s, v)
    ensures Fits(s, v, "/?#") && Fits(s, v, "#")
  {
    forall i, stops | 0 <= i < |s| && s[i].Gap? && (stops == "/?#" || stops == "#")
      ensures Avoids(v(s[i].name), stops)
    {
      ProperAvoids(v(s[i].name));
    }
  }

  lemma ProperAvoids(x: Text)
    requires Proper(x)
    ensures Avoids(x, "/?#") && Avoids(x, "#")
  {
    assert forall c: Byte :: c in "/?#" ==> !PathTemplate.PathSafe(c) && c != '%';
    assert forall c: Byte :: c in "#" ==> !PathTemplate.PathSafe(c) && c != '%';
  }

  function HashedOf(s: Masked): Masked {
    s[..Stop(s, "#")]
  }

  function FragmentOf(s: Masked): Masked {
    var tail := s[Stop(s, "#")..];
    if tail == [] then [] else tail[1..]
  }

  function UserOf(s: Masked): Masked {
    var m := SettleScheme(s);
    if m.None? || !LitSlashes(m.value.1) then []
    else
      var q := m.value.1[2..];
      UserRegion(q[..Stop(q, "/?#")])
  }

  /** What stands before the last at sign. */
  function UserRegion(region: Masked): Masked {
    var j := LastMark(region);
    if j < |region| && region[j].Known? then region[..j] else []
  }

  lemma FragmentSound(s: Masked, v: Text -> Text)
    requires Fits(s, v, "#")
    ensures BeforeHash(Fill(s, v)) == Fill(HashedOf(s), v) && AfterHash(Fill(s, v)) == Fill(FragmentOf(s), v)
  {
    FillStop(s, "#", v);
    var x, tail := Fill(s, v), s[Stop(s, "#")..];
    var i := IndexAny(x, "#");
    if tail == [] {
    } else {
      FillHead(tail, v);
      assert x[i..][1..] == x[i + 1..];
    }
  }

  function UserPart(part: Text): Text {
    var i := LastIndex(part, '@');
    if i < |part| then part[..i] else []
  }

  lemma UserSplit(a: Text, b: Text)
    requires Avoids(b, "@")
    ensures UserPart(a + (['@'] + b)) == a
  {
    AtSplit(a, b);
    var x := a + (['@'] + b);
    assert x[|a|] == '@' && forall k :: |a| < k < |x| ==> x[k] == b[k - |a| - 1];
    assert LastIndex(x, '@') == |a| && x[..|a|] == a;
  }

  lemma UserRegionSound(region: Masked, v: Text -> Text)
    requires SettleAuthority(region).Some?
    ensures UserPart(Fill(region, v)) == Fill(UserRegion(region), v)
  {
    var j := LastMark(region);
    if j == |region| {
      GapFreeAvoids(region, v, "@");
      assert '@' in "@" && LastIndex(Fill(region, v), '@') == |Fill(region, v)|;
    } else {
      GapFreeAvoids(region[j + 1..], v, "@");
      FillAround(region, j, v);
      UserSplit(Fill(region[..j], v), Fill(region[j + 1..], v));
    }
  }

  lemma UserSound(s: Masked, v: Text -> Text)
    requires Settle(s).Some? && Settle(s).value.shape != Missing && Fits(s, v, "/?#")
    ensures Split(Fill(s, v)).userinfo == Fill(UserOf(s), v)
  {
    SchemeSound(s, v);
    var r := SettleScheme(s).value.1;
    assert Fits(r, v, "/?#");
    SlashPrefix(Fill(r, v));
    SlashesAreKnown(r, v);
    if LitSlashes(r) {
      var q := r[2..];
      FillStop(q, "/?#", v);
      UserRegionSound(q[..Stop(q, "/?#")], v);
    }
  }

  // ------------------------------------------------------- settled and exact

  /** Acceptance of a filled text, part by part. */
  lemma AcceptedParts(s: Masked, v: Text -> Text)
    requires Settle(s).Some? && Settle(s).value.shape != Missing && Properly(s, v)
    ensures Accepted(Fill(s, v)) <==>
            && KnownAll(HashedOf(s), Printable) && KnownAll(UserOf(s), UserByte)
            && WellEscaped(Fill(FragmentOf(s), v)) && WellEscaped(Fill(UserOf(s), v))
            && (Settle(s).value.shape.rootless || WellEscaped(Fill(Settle(s).value.path, v)))
    ensures Properly(FragmentOf(s), v) && Properly(UserOf(s), v) && Properly(Settle(s).value.path, v)
  {
    ProperFits(s, v);
    SettleSound(s, v);
    FragmentSound(s, v);
    UserSound(s, v);
    BytesCover();
    ProperParts(s, v);
    AllFilled(HashedOf(s), v, Printable);
    AllFilled(UserOf(s), v, UserByte);
  }

  lemma ProperTail(s: Masked, i: nat, v: Text -> Text)
    requires Properly(s, v) && i <= |s|
    ensures Properly(s[i..], v)
  {
  }

  lemma ProperHead(s: Masked, i: nat, v: Text -> Text)
    requires Properly(s, v) && i <= |s|
    ensures Properly(s[..i], v)
  {
  }

  lemma ProperRest(scheme: Text, r: Masked, v: Text -> Text)
    requires SettleRest(scheme, r).Some? && Properly(r, v)
    ensures Properly(SettleRest(scheme, r).value.path, v)
    ensures LitSlashes(r) ==> Properly(UserRegion(r[2..][..Stop(r[2..], "/?#")]), v)
  {
    if LitSlashes(r) {
      ProperTail(r, 2, v);
      var q := r[2..];
      var e := Stop(q, "/?#");
      ProperTail(q, e, v);
      ProperHead(q[e..], Stop(q[e..], "?#"), v);
      ProperHead(q, e, v);
      var j := LastMark(q[..e]);
      if j < e {
        ProperHead(q[..e], j, v);
      }
    } else {
      ProperHead(r, Stop(r, "?#"), v);
    }
  }

  lemma ProperScheme(s: Masked, v: Text -> Text)
    requires SettleScheme(s).Some? && Properly(s, v)
    ensures Properly(SettleScheme(s).value.1, v)
  {
    var i := StopOrGap(s, ":/?#");
    if i < |s| {
      ProperTail(s, i + 1, v);
    }
  }

  lemma ProperParts(s: Masked, v: Text -> Text)
    requires Settle(s).Some? && Settle(s).value.shape != Missing && Properly(s, v)
    ensures Properly(HashedOf(s), v) && Properly(FragmentOf(s), v) && Properly(UserOf(s), v)
    ensures Properly(Settle(s).value.path, v)
  {
    var k := Stop(s, "#");
    ProperHead(s, k, v);
    if k < |s| {
      ProperTail(s, k + 1, v);
      assert s[k..][1..] == s[k + 1..];
    }
    ProperScheme(s, v);
    ProperRest(SettleScheme(s).value.0, SettleScheme(s).value.1, v);
  }

  /** No gap can decide whether the text is accepted: it is refused in any case,
      or no gap stands inside an escape. */
  predicate ParseSettled(s: Masked) {
    && Settle(s).Some?
    && (Accepted(Fill(s, Always(DIGITS))) ==>
          && Unbroken(UserOf(s), 0) && Unbroken(FragmentOf(s), 0)
          && (Settle(s).value.shape.Shape? && !Settle(s).value.shape.rootless ==> Unbroken(Settle(s).value.path, 0)))
  }

  lemma OnlyColonMissing(s: Masked)
    requires Settle(s).Some? && Settle(s).value.shape == Missing
    ensures s != [] && s[0] == Known(':')
  {
    if !(s != [] && s[0] == Known(':')) {
      RestNotMissing(SettleScheme(s).value.0, SettleScheme(s).value.1);
    }
  }

  lemma RestNotMissing(scheme: Text, r: Masked)
    ensures SettleRest(scheme, r).Some? ==> SettleRest(scheme, r).value.shape != Missing
  {
  }

  lemma MissingRefused(s: Masked, v: Text -> Text)
    requires Settle(s).Some? && Settle(s).value.shape == Missing
    ensures !Accepted(Fill(s, v))
  {
    OnlyColonMissing(s);
    FillHead(s, v);
    assert ShapeOf(Fill(s, v)) == Missing;
  }

  lemma ProperDigits(s: Masked)
    ensures Properly(s, Always(DIGITS)) && Properly(s, Always("z"))
  {
    DigitsProper();
  }

  lemma ParseSound(s: Masked, v: Text -> Text)
    requires ParseSettled(s) && Properly(s, v)
    ensures Accepted(Fill(s, v)) <==> Accepted(Fill(s, Always(DIGITS)))
  {
    ProperDigits(s);
    if Settle(s).value.shape == Missing {
      MissingRefused(s, v);
      MissingRefused(s, Always(DIGITS));
    } else {
      AcceptedParts(s, v);
      AcceptedParts(s, Always(DIGITS));
      PartSound(FragmentOf(s), v);
      PartSound(UserOf(s), v);
      PartSound(Settle(s).value.path, v);
    }
  }

  lemma PartSound(s: Masked, v: Text -> Text)
    requires Properly(s, v)
    ensures WellEscaped(Fill(s, v)) ==> WellEscaped(Fill(s, Always(DIGITS)))
    ensures Unbroken(s, 0) ==> (WellEscaped(Fill(s, v)) <==> WellEscaped(Fill(s, Always(DIGITS))))
  {
    if WellEscaped(Fill(s, v)) {
      DigitsAreBest(s, v, 0);
    }
    if Unbroken(s, 0) {
      ProperDigits(s);
      UnbrokenSound(s, v, 0);
      UnbrokenSound(s, Always(DIGITS), 0);
    }
  }

  /** A settled shape whose acceptance is not settled: one filling is accepted and
      another refused. */
  lemma ParseExact(s: Masked)
    requires Settle(s).Some? && !ParseSettled(s)
    ensures Accepted(Fill(s, Always(DIGITS))) && !Accepted(Fill(s, Always("z")))
  {
    ProperDigits(s);
    if Settle(s).value.shape == Missing {
      MissingRefused(s, Always(DIGITS));
    } else {
      AcceptedParts(s, Always(DIGITS));
      AcceptedParts(s, Always("z"));
      if !Unbroken(UserOf(s), 0) {
        BrokenTells(UserOf(s), 0);
      } else if !Unbroken(FragmentOf(s), 0) {
        BrokenTells(FragmentOf(s), 0);
      } else {
        BrokenTells(Settle(s).value.path, 0);
      }
    }
  }
}
