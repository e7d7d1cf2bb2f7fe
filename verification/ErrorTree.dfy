/** The URL-diagnostic sanitizer: a rewrite of an error tree that removes URL
    detail and keeps error classification (request.go). */
module ErrorTree {
  import opened Base

  /** A URL as its parts, as a scheme with an opaque rest, or a text that does
      not parse as one. */
  datatype Url =
    | Parsed(scheme: Text, user: Option<Text>, host: Text, path: Text, query: Text, fragment: Text)
    | Opaque(scheme: Text, rest: Text, query: Text, fragment: Text)
    | Unparsed(text: Text)

  const REDACTED: Url := Unparsed("<redacted>")

  /** sanitizeDiagnosticURL: user, query and fragment are cleared; an opaque rest
      is not. */
  function CleanUrl(u: Url): Url {
    match u
    case Parsed(scheme, _, host, path, _, _) => Parsed(scheme, None, host, path, [], [])
    case Opaque(scheme, rest, _, _) => Opaque(scheme, rest, [], [])
    case Unparsed(_) => REDACTED
  }

  /** The text of a URL shows no user, query or fragment, and no opaque rest, which
      may hold anything. */
  predicate Clean(u: Url) {
    match u
    case Parsed(_, user, _, _, query, fragment) => user == None && query == [] && fragment == []
    case Opaque(_, rest, query, fragment) => rest == [] && query == [] && fragment == []
    case Unparsed(_) => u == REDACTED
  }

  /** Where a node came from: an object of the caller or one the rewrite made. */
  datatype Identity = Given(id: nat) | Made

  /** An error value. `isSet` lists the sentinels that the node's own Is method
      accepts, when it has one; children may be nil. */
  datatype Error =
    | Leaf(id: nat, isSet: Option<set<nat>>)
    | NilUrlError(id: nat)
    | NilOpError(id: nat)
    | UrlError(who: Identity, op: Text, url: Url, cause: Option<Error>)
    | OpError(who: Identity, op: Text, cause: Option<Error>)
    | Multi(who: Identity, isSet: Option<set<nat>>, causes: seq<Option<Error>>)
    | Wrap(who: Identity, isSet: Option<set<nat>>, isNetError: bool, cause: Option<Error>)
    | Sanitized(isSet: Option<set<nat>>, isNetError: bool, cause: Option<Error>)

  // ------------------------------------------------------------- the rewrite

  /** sanitizeURLDiagnosticErrorTree: whether the tree changed, and the result.
      A multi-error changes when any cause does. A plain wrapper around a changed
      cause is dropped, because its own text may quote the URL, unless it has an
      Is method or is a net.Error; the replacement has Is but no longer counts
      as a net.Error, since it lacks Temporary. */
  function Sanitize(e: Error): (bool, Error)
    decreases e
  {
    match e
    case UrlError(_, op, url, cause) => (true, UrlError(Made, op, CleanUrl(url), SanitizeOption(cause).1))
    case OpError(_, op, cause) =>
      var (changed, inner) := SanitizeOption(cause);
      if changed then (true, OpError(Made, op, inner)) else (false, e)
    case Multi(_, _, causes) =>
      var (changed, inner) := SanitizeAll(causes);
      if changed then (true, Multi(Made, None, inner)) else (false, e)
    case Wrap(_, isSet, isNetError, cause) =>
      var (changed, inner) := SanitizeOption(cause);
      if !changed then (false, e)
      else if isNetError || isSet.Some? then (true, Sanitized(isSet, isNetError, inner))
      else (true, if inner.Some? then inner.value else e)
    case Sanitized(isSet, _, cause) =>
      var (changed, inner) := SanitizeOption(cause);
      if changed then (true, Sanitized(isSet, false, inner)) else (false, e)
    case _ => (false, e)
  }

  function SanitizeOption(o: Option<Error>): (bool, Option<Error>)
    decreases o, 1
  {
    if o.None? then (false, None) else var r := Sanitize(o.value); (r.0, Some(r.1))
  }

  /** The sanitized causes without their nils, as errors.Join keeps them. */
  function SanitizeAll(causes: seq<Option<Error>>): (bool, seq<Option<Error>>)
    decreases causes
  {
    if causes == [] then (false, [])
    else
      var (c, head) := SanitizeOption(causes[0]);
      var (d, tail) := SanitizeAll(causes[1..]);
      (c || d, (if head.Some? then [head] else []) + tail)
  }

  // ------------------------------------------------------ what a caller sees

  /** A url.Error with a URL is reachable by unwrapping. */
  predicate HasUrl(e: Error)
    decreases e
  {
    match e
    case UrlError(_, _, _, _) => true
    case OpError(_, _, cause) => cause.Some? && HasUrl(cause.value)
    case Multi(_, _, causes) => exists i :: 0 <= i < |causes| && causes[i].Some? && HasUrl(causes[i].value)
    case Wrap(_, _, _, cause) => cause.Some? && HasUrl(cause.value)
    case Sanitized(_, _, cause) => cause.Some? && HasUrl(cause.value)
    case _ => false
  }

  /** The text of an error can only show clean URLs. A caller's wrapper formats
      its own text, so it is safe only with no URL below it at all. */
  predicate Safe(e: Error)
    decreases e
  {
    match e
    case UrlError(_, _, url, cause) => Clean(url) && (cause.Some? ==> Safe(cause.value))
    case OpError(_, _, cause) => cause.Some? ==> Safe(cause.value)
    case Multi(who, _, causes) =>
      if who.Given? then !HasUrl(e) else forall i :: 0 <= i < |causes| && causes[i].Some? ==> Safe(causes[i].value)
    case Wrap(_, _, _, _) => !HasUrl(e)
    case Sanitized(_, _, cause) => cause.Some? ==> Safe(cause.value)
    case _ => true
  }

  /** No reachable url.Error has an opaque rest. */
  predicate NoOpaque(e: Error)
    decreases e
  {
    match e
    case UrlError(_, _, url, cause) => (url.Opaque? ==> url.rest == []) && (cause.Some? ==> NoOpaque(cause.value))
    case OpError(_, _, cause) => cause.Some? ==> NoOpaque(cause.value)
    case Multi(_, _, causes) => forall i :: 0 <= i < |causes| && causes[i].Some? ==> NoOpaque(causes[i].value)
    case Wrap(_, _, _, cause) => cause.Some? ==> NoOpaque(cause.value)
    case Sanitized(_, _, cause) => cause.Some? ==> NoOpaque(cause.value)
    case _ => true
  }

  /** errors.Is for a leaf sentinel. With `skip`, the Is method of a multi-error
      that holds a URL is ignored. */
  predicate Matches(e: Error, sentinel: nat, skip: bool)
    decreases e
  {
    match e
    case Leaf(id, isSet) => id == sentinel || (isSet.Some? && sentinel in isSet.value)
    case NilUrlError(_) => false
    case NilOpError(_) => false
    case UrlError(_, _, _, cause) => cause.Some? && Matches(cause.value, sentinel, skip)
    case OpError(_, _, cause) => cause.Some? && Matches(cause.value, sentinel, skip)
    case Multi(_, isSet, causes) =>
      || (isSet.Some? && sentinel in isSet.value && !(skip && HasUrl(e)))
      || exists i :: 0 <= i < |causes| && causes[i].Some? && Matches(causes[i].value, sentinel, skip)
    case Wrap(_, isSet, _, cause) =>
      (isSet.Some? && sentinel in isSet.value) || (cause.Some? && Matches(cause.value, sentinel, skip))
    case Sanitized(isSet, _, cause) =>
      (isSet.Some? && sentinel in isSet.value) || (cause.Some? && Matches(cause.value, sentinel, skip))
  }

  predicate Is(e: Error, sentinel: nat) {
    Matches(e, sentinel, false)
  }

  /** A net.OpError is found by errors.As. */
  predicate HasOp(e: Error)
    decreases e
  {
    match e
    case NilOpError(_) => true
    case OpError(_, _, _) => true
    case UrlError(_, _, _, cause) => cause.Some? && HasOp(cause.value)
    case Multi(_, _, causes) => exists i :: 0 <= i < |causes| && causes[i].Some? && HasOp(causes[i].value)
    case Wrap(_, _, _, cause) => cause.Some? && HasOp(cause.value)
    case Sanitized(_, _, cause) => cause.Some? && HasOp(cause.value)
    case _ => false
  }

  // --------------------------------------------------------------- theorems

  /** The list view of the three properties, to follow SanitizeAll. */
  predicate AnyUrl(causes: seq<Option<Error>>) {
    exists i :: 0 <= i < |causes| && causes[i].Some? && HasUrl(causes[i].value)
  }

  predicate AnyOp(causes: seq<Option<Error>>) {
    exists i :: 0 <= i < |causes| && causes[i].Some? && HasOp(causes[i].value)
  }

  predicate AnyMatch(causes: seq<Option<Error>>, sentinel: nat, skip: bool) {
    exists i :: 0 <= i < |causes| && causes[i].Some? && Matches(causes[i].value, sentinel, skip)
  }

  lemma AnySplit(causes: seq<Option<Error>>, sentinel: nat, skip: bool)
    requires causes != []
    ensures AnyUrl(causes) <==> (causes[0].Some? && HasUrl(causes[0].value)) || AnyUrl(causes[1..])
    ensures AnyOp(causes) <==> (causes[0].Some? && HasOp(causes[0].value)) || AnyOp(causes[1..])
    ensures AnyMatch(causes, sentinel, skip) <==>
            (causes[0].Some? && Matches(causes[0].value, sentinel, skip)) || AnyMatch(causes[1..], sentinel, skip)
  {
    assert forall i :: 0 < i < |causes| ==> causes[i] == causes[1..][i - 1];
  }

  /** The original object comes back exactly when no url.Error is reachable. */
  lemma {:induction false} ChangedIffUrl(e: Error)
    ensures Sanitize(e).0 <==> HasUrl(e)
    ensures !HasUrl(e) ==> Sanitize(e).1 == e
    decreases e
  {
    match e
    case OpError(_, _, cause) => ChangedIffUrlOption(cause);
    case Multi(_, _, causes) => ChangedIffAnyUrl(causes);
    case Wrap(_, _, _, cause) => ChangedIffUrlOption(cause);
    case Sanitized(_, _, cause) => ChangedIffUrlOption(cause);
    case _ =>
  }

  lemma {:induction false} ChangedIffUrlOption(o: Option<Error>)
    ensures SanitizeOption(o).0 <==> o.Some? && HasUrl(o.value)
    decreases o, 1
  {
    if o.Some? { ChangedIffUrl(o.value); }
  }

  lemma {:induction false} ChangedIffAnyUrl(causes: seq<Option<Error>>)
    ensures SanitizeAll(causes).0 <==> AnyUrl(causes)
    decreases causes
  {
    if causes == [] {
    } else {
      AnySplit(causes, 0, false);
      ChangedIffUrlOption(causes[0]);
      ChangedIffAnyUrl(causes[1..]);
    }
  }

  /** A tree with no URL is safe as it is. */
  lemma {:induction false} NoUrlIsSafe(e: Error)
    requires !HasUrl(e)
    ensures Safe(e) && NoOpaque(e)
    decreases e
  {
    match e
    case OpError(_, _, cause) => if cause.Some? { NoUrlIsSafe(cause.value); }
    case Multi(who, _, causes) =>
      forall i | 0 <= i < |causes| && causes[i].Some?
        ensures Safe(causes[i].value) && NoOpaque(causes[i].value)
      {
        assert !HasUrl(causes[i].value);
        NoUrlIsSafe(causes[i].value);
      }
    case Wrap(_, _, _, cause) => if cause.Some? { NoUrlIsSafe(cause.value); }
    case Sanitized(_, _, cause) => if cause.Some? { NoUrlIsSafe(cause.value); }
    case _ =>
  }

  /** The result shows no URL credentials, query or fragment, in any error
      reachable from it and in any text it prints, exactly when no url.Error of
      the tree has an opaque rest. */
  lemma {:induction false} SanitizedIsSafe(e: Error)
    ensures Safe(Sanitize(e).1) <==> NoOpaque(e)
    decreases e
  {
    ChangedIffUrl(e);
    if !HasUrl(e) {
      NoUrlIsSafe(e);
    } else {
      match e
      case UrlError(_, _, _, cause) => SanitizedOptionSafe(cause);
      case OpError(_, _, cause) => SanitizedOptionSafe(cause);
      case Multi(_, _, causes) => SanitizedAllSafe(causes);
      case Wrap(_, _, _, cause) => SanitizedOptionSafe(cause);
      case Sanitized(_, _, cause) => SanitizedOptionSafe(cause);
    }
  }

  lemma {:induction false} SanitizedOptionSafe(o: Option<Error>)
    ensures SanitizeOption(o).1.Some? <==> o.Some?
    ensures o.Some? ==> (Safe(SanitizeOption(o).1.value) <==> NoOpaque(o.value))
    decreases o, 1
  {
    if o.Some? { SanitizedIsSafe(o.value); }
  }

  predicate AllSafe(causes: seq<Option<Error>>) {
    forall i :: 0 <= i < |causes| && causes[i].Some? ==> Safe(causes[i].value)
  }

  predicate NoneOpaque(causes: seq<Option<Error>>) {
    forall i :: 0 <= i < |causes| && causes[i].Some? ==> NoOpaque(causes[i].value)
  }

  lemma AllSplit(causes: seq<Option<Error>>)
    requires causes != []
    ensures AllSafe(causes) <==> (causes[0].Some? ==> Safe(causes[0].value)) && AllSafe(causes[1..])
    ensures NoneOpaque(causes) <==> (causes[0].Some? ==> NoOpaque(causes[0].value)) && NoneOpaque(causes[1..])
  {
    assert forall i :: 0 < i < |causes| ==> causes[i] == causes[1..][i - 1];
  }

  lemma {:induction false} SanitizedAllSafe(causes: seq<Option<Error>>)
    ensures AllSafe(SanitizeAll(causes).1) <==> NoneOpaque(causes)
    decreases causes
  {
    if causes == [] {
    } else {
      SanitizedOptionSafe(causes[0]);
      SanitizedAllSafe(causes[1..]);
      AllSplit(causes);
      var head, tail := SanitizeOption(causes[0]).1, SanitizeAll(causes[1..]).1;
      if head.Some? {
        AllSplit([head] + tail);
        assert ([head] + tail)[1..] == tail;
      } else {
        assert [] + tail == tail;
      }
    }
  }

  /** "http:user:pw@host" parses as a scheme and an opaque rest, and the sanitized
      error still shows it. */
  lemma OpaqueUrlIsShown() returns (e: Error)
    ensures e.UrlError? && e.url == Opaque("http", "user:pw@host", [], [])
    ensures Sanitize(e).1.url == e.url && !Safe(Sanitize(e).1)
  {
    e := UrlError(Given(1), "Get", Opaque("http", "user:pw@host", [], []), None);
  }

  /** Classification of the result, for every tree and sentinel: it matches what
      the original matches when the Is methods of rewritten multi-errors are set
      aside, and it contains a net.OpError exactly when the original does. */
  lemma {:induction false} ClassifiedAlike(e: Error, sentinel: nat)
    ensures Is(Sanitize(e).1, sentinel) <==> Matches(e, sentinel, true)
    ensures HasOp(Sanitize(e).1) <==> HasOp(e)
    decreases e
  {
    ChangedIffUrl(e);
    if !HasUrl(e) {
      SkipsNothing(e, sentinel);
    } else {
      match e
      case UrlError(_, _, _, cause) => ClassifiedAlikeOption(cause, sentinel);
      case OpError(_, _, cause) => ClassifiedAlikeOption(cause, sentinel);
      case Multi(_, _, causes) => ClassifiedAlikeAll(causes, sentinel);
      case Wrap(_, _, _, cause) => ClassifiedAlikeOption(cause, sentinel);
      case Sanitized(_, _, cause) => ClassifiedAlikeOption(cause, sentinel);
    }
  }

  lemma {:induction false} ClassifiedAlikeOption(o: Option<Error>, sentinel: nat)
    ensures SanitizeOption(o).1.Some? <==> o.Some?
    ensures o.Some? ==>
              && (Is(SanitizeOption(o).1.value, sentinel) <==> Matches(o.value, sentinel, true))
              && (HasOp(SanitizeOption(o).1.value) <==> HasOp(o.value))
    decreases o, 1
  {
    if o.Some? { ClassifiedAlike(o.value, sentinel); }
  }

  lemma {:induction false} ClassifiedAlikeAll(causes: seq<Option<Error>>, sentinel: nat)
    ensures AnyMatch(SanitizeAll(causes).1, sentinel, false) <==> AnyMatch(causes, sentinel, true)
    ensures AnyOp(SanitizeAll(causes).1) <==> AnyOp(causes)
    decreases causes
  {
    if causes == [] {
    } else {
      ClassifiedAlikeOption(causes[0], sentinel);
      ClassifiedAlikeAll(causes[1..], sentinel);
      AnySplit(causes, sentinel, true);
      var head, tail := SanitizeOption(causes[0]).1, SanitizeAll(causes[1..]).1;
      if head.Some? {
        AnySplit([head] + tail, sentinel, false);
        assert ([head] + tail)[1..] == tail;
      } else {
        assert [] + tail == tail;
      }
    }
  }

  /** Without a URL below, skipping ignores no Is method. */
  lemma {:induction false} SkipsNothing(e: Error, sentinel: nat)
    requires !HasUrl(e)
    ensures Matches(e, sentinel, true) <==> Matches(e, sentinel, false)
    decreases e
  {
    match e
    case OpError(_, _, cause) => if cause.Some? { SkipsNothing(cause.value, sentinel); }
    case Multi(_, _, causes) =>
      forall i | 0 <= i < |causes| && causes[i].Some?
        ensures Matches(causes[i].value, sentinel, true) <==> Matches(causes[i].value, sentinel, false)
      {
        assert !HasUrl(causes[i].value);
        SkipsNothing(causes[i].value, sentinel);
      }
    case Wrap(_, _, _, cause) => if cause.Some? { SkipsNothing(cause.value, sentinel); }
    case Sanitized(_, _, cause) => if cause.Some? { SkipsNothing(cause.value, sentinel); }
    case _ =>
  }

  /** No multi-error that holds a URL defines an Is method of its own. */
  predicate PlainMulti(e: Error)
    decreases e
  {
    match e
    case UrlError(_, _, _, cause) => cause.Some? ==> PlainMulti(cause.value)
    case OpError(_, _, cause) => cause.Some? ==> PlainMulti(cause.value)
    case Multi(_, isSet, causes) =>
      && (HasUrl(e) ==> isSet.None?)
      && forall i :: 0 <= i < |causes| && causes[i].Some? ==> PlainMulti(causes[i].value)
    case Wrap(_, _, _, cause) => cause.Some? ==> PlainMulti(cause.value)
    case Sanitized(_, _, cause) => cause.Some? ==> PlainMulti(cause.value)
    case _ => true
  }

  lemma {:induction false} PlainSkipsNothing(e: Error, sentinel: nat)
    requires PlainMulti(e)
    ensures Matches(e, sentinel, true) <==> Matches(e, sentinel, false)
    decreases e
  {
    match e
    case UrlError(_, _, _, cause) => if cause.Some? { PlainSkipsNothing(cause.value, sentinel); }
    case OpError(_, _, cause) => if cause.Some? { PlainSkipsNothing(cause.value, sentinel); }
    case Multi(_, _, causes) =>
      forall i | 0 <= i < |causes| && causes[i].Some?
        ensures Matches(causes[i].value, sentinel, true) <==> Matches(causes[i].value, sentinel, false)
      {
        PlainSkipsNothing(causes[i].value, sentinel);
      }
    case Wrap(_, _, _, cause) => if cause.Some? { PlainSkipsNothing(cause.value, sentinel); }
    case Sanitized(_, _, cause) => if cause.Some? { PlainSkipsNothing(cause.value, sentinel); }
    case _ =>
  }

  /** Sentinel matching is unchanged in both directions under the guard. */
  lemma MatchingUnchanged(e: Error, sentinel: nat)
    requires PlainMulti(e)
    ensures Is(Sanitize(e).1, sentinel) <==> Is(e, sentinel)
  {
    ClassifiedAlike(e, sentinel);
    PlainSkipsNothing(e, sentinel);
  }

  /** A sentinel stops matching exactly when only skipped Is methods matched it. */
  lemma MatchingLostExactly(e: Error, sentinel: nat)
    ensures Is(Sanitize(e).1, sentinel) != Is(e, sentinel) <==>
            Is(e, sentinel) && !Matches(e, sentinel, true)
  {
    ClassifiedAlike(e, sentinel);
    if Matches(e, sentinel, true) {
      SkipOnlyLoses(e, sentinel);
    }
  }

  lemma {:induction false} SkipOnlyLoses(e: Error, sentinel: nat)
    requires Matches(e, sentinel, true)
    ensures Matches(e, sentinel, false)
    decreases e
  {
    match e
    case UrlError(_, _, _, cause) => SkipOnlyLoses(cause.value, sentinel);
    case OpError(_, _, cause) => SkipOnlyLoses(cause.value, sentinel);
    case Multi(_, isSet, causes) =>
      if !(isSet.Some? && sentinel in isSet.value) {
        var i :| 0 <= i < |causes| && causes[i].Some? && Matches(causes[i].value, sentinel, true);
        SkipOnlyLoses(causes[i].value, sentinel);
      }
    case Wrap(_, isSet, _, cause) =>
      if !(isSet.Some? && sentinel in isSet.value) { SkipOnlyLoses(cause.value, sentinel); }
    case Sanitized(isSet, _, cause) =>
      if !(isSet.Some? && sentinel in isSet.value) { SkipOnlyLoses(cause.value, sentinel); }
    case _ =>
  }

  // ------------------------------------------------------------ what is kept

  /** What a diagnosis consists of, in the order in which unwrapping finds it. */
  datatype Finding = AtUrl(op: Text, url: Url) | AtOp(op: Text) | AtLeaf(error: Error)

  /** The url.Errors, net.OpErrors and leaves of a tree. */
  function Findings(e: Error): seq<Finding>
    decreases e
  {
    match e
    case UrlError(_, op, url, cause) => [AtUrl(op, url)] + FindingsOf(cause)
    case OpError(_, op, cause) => [AtOp(op)] + FindingsOf(cause)
    case Multi(_, _, causes) => FindingsOfAll(causes)
    case Wrap(_, _, _, cause) => FindingsOf(cause)
    case Sanitized(_, _, cause) => FindingsOf(cause)
    case _ => [AtLeaf(e)]
  }

  function FindingsOf(o: Option<Error>): seq<Finding>
    decreases o, 1
  {
    if o.None? then [] else Findings(o.value)
  }

  function FindingsOfAll(causes: seq<Option<Error>>): seq<Finding>
    decreases causes
  {
    if causes == [] then [] else FindingsOf(causes[0]) + FindingsOfAll(causes[1..])
  }

  /** The diagnosis a sanitized URL still gives: scheme, host and path, or scheme
      and opaque rest, or nothing. */
  predicate Diagnosed(u: Url, v: Url) {
    match u
    case Parsed(scheme, _, host, path, _, _) =>
      && v.Parsed? && v.scheme == scheme && v.host == host && v.path == path
      && v.user == None && v.query == [] && v.fragment == []
    case Opaque(scheme, rest, _, _) =>
      v.Opaque? && v.scheme == scheme && v.rest == rest && v.query == [] && v.fragment == []
    case Unparsed(_) => v == Unparsed("<redacted>")
  }

  predicate KeptFinding(a: Finding, b: Finding) {
    if a.AtUrl? then b.AtUrl? && b.op == a.op && Diagnosed(a.url, b.url) else b == a
  }

  ghost predicate KeptAll(a: seq<Finding>, b: seq<Finding>) {
    |a| == |b| && forall i :: 0 <= i < |a| ==> KeptFinding(a[i], b[i])
  }

  lemma KeptConcat(a: seq<Finding>, b: seq<Finding>, x: seq<Finding>, y: seq<Finding>)
    requires KeptAll(a, b) && KeptAll(x, y)
    ensures KeptAll(a + x, b + y)
  {
  }

  /** A tree without URLs is all kept. */
  lemma {:induction false} NoUrlFindings(e: Error)
    requires !HasUrl(e)
    ensures KeptAll(Findings(e), Findings(e))
    decreases e
  {
    match e
    case OpError(_, _, cause) => if cause.Some? { NoUrlFindings(cause.value); }
    case Multi(_, _, causes) => NoUrlFindingsAll(causes);
    case Wrap(_, _, _, cause) => if cause.Some? { NoUrlFindings(cause.value); }
    case Sanitized(_, _, cause) => if cause.Some? { NoUrlFindings(cause.value); }
    case _ =>
  }

  lemma {:induction false} NoUrlFindingsAll(causes: seq<Option<Error>>)
    requires !AnyUrl(causes)
    ensures KeptAll(FindingsOfAll(causes), FindingsOfAll(causes))
    decreases causes
  {
    if causes == [] {
    } else {
      AnySplit(causes, 0, false);
      NoUrlFindingsOption(causes[0]);
      NoUrlFindingsAll(causes[1..]);
    }
  }

  lemma {:induction false} NoUrlFindingsOption(o: Option<Error>)
    requires o.Some? ==> !HasUrl(o.value)
    ensures KeptAll(FindingsOf(o), FindingsOf(o))
    decreases o, 1
  {
    if o.Some? { NoUrlFindings(o.value); }
  }

  /** Sanitizing loses, adds and reorders nothing: the result has the same
      url.Errors, net.OpErrors and leaves in the same order, each URL diagnosed. */
  lemma {:induction false} FindingsKept(e: Error)
    ensures KeptAll(Findings(e), Findings(Sanitize(e).1))
    decreases e
  {
    ChangedIffUrl(e);
    if !HasUrl(e) {
      NoUrlFindings(e);
    } else {
      match e
      case UrlError(_, op, url, cause) =>
        FindingsKeptOption(cause);
        KeptConcat([AtUrl(op, url)], [AtUrl(op, CleanUrl(url))], FindingsOf(cause), FindingsOf(SanitizeOption(cause).1));
      case OpError(_, _, cause) => FindingsKeptOption(cause);
      case Multi(_, _, causes) => FindingsKeptAll(causes);
      case Wrap(_, _, _, cause) => FindingsKeptOption(cause);
      case Sanitized(_, _, cause) => FindingsKeptOption(cause);
    }
  }

  lemma {:induction false} FindingsKeptOption(o: Option<Error>)
    ensures KeptAll(FindingsOf(o), FindingsOf(SanitizeOption(o).1))
    decreases o, 1
  {
    if o.Some? { FindingsKept(o.value); }
  }

  lemma {:induction false} FindingsKeptAll(causes: seq<Option<Error>>)
    ensures KeptAll(FindingsOfAll(causes), FindingsOfAll(SanitizeAll(causes).1))
    decreases causes
  {
    if causes == [] {
    } else {
      FindingsKeptOption(causes[0]);
      FindingsKeptAll(causes[1..]);
      var head, tail := SanitizeOption(causes[0]).1, SanitizeAll(causes[1..]).1;
      if head.Some? {
        assert ([head] + tail)[1..] == tail;
      } else {
        assert [] + tail == tail;
      }
      assert FindingsOfAll((if head.Some? then [head] else []) + tail) == FindingsOf(head) + FindingsOfAll(tail);
      KeptConcat(FindingsOf(causes[0]), FindingsOf(head), FindingsOfAll(causes[1..]), FindingsOfAll(tail));
    }
  }

  // --------------------------------------------------------------- timeouts

  /** The wrappers that report a timeout of their own. With `skip`, those that the
      sanitizer made before and has to make again, which no longer do. */
  function Timeouts(e: Error, skip: bool): nat
    decreases e
  {
    match e
    case UrlError(_, _, _, cause) => TimeoutsOf(cause, skip)
    case OpError(_, _, cause) => TimeoutsOf(cause, skip)
    case Multi(_, _, causes) => TimeoutsOfAll(causes, skip)
    case Wrap(_, _, isNetError, cause) => (if isNetError then 1 else 0) + TimeoutsOf(cause, skip)
    case Sanitized(_, isNetError, cause) => (if isNetError && !(skip && HasUrl(e)) then 1 else 0) + TimeoutsOf(cause, skip)
    case _ => 0
  }

  function TimeoutsOf(o: Option<Error>, skip: bool): nat
    decreases o, 1
  {
    if o.None? then 0 else Timeouts(o.value, skip)
  }

  function TimeoutsOfAll(causes: seq<Option<Error>>, skip: bool): nat
    decreases causes
  {
    if causes == [] then 0 else TimeoutsOf(causes[0], skip) + TimeoutsOfAll(causes[1..], skip)
  }

  lemma {:induction false} NoUrlTimeouts(e: Error)
    requires !HasUrl(e)
    ensures Timeouts(e, true) == Timeouts(e, false)
    decreases e
  {
    match e
    case OpError(_, _, cause) => NoUrlTimeoutsOf(cause);
    case Multi(_, _, causes) => NoUrlTimeoutsOfAll(causes);
    case Wrap(_, _, _, cause) => NoUrlTimeoutsOf(cause);
    case Sanitized(_, _, cause) => NoUrlTimeoutsOf(cause);
    case _ =>
  }

  lemma {:induction false} NoUrlTimeoutsOf(o: Option<Error>)
    requires o.Some? ==> !HasUrl(o.value)
    ensures TimeoutsOf(o, true) == TimeoutsOf(o, false)
    decreases o, 1
  {
    if o.Some? { NoUrlTimeouts(o.value); }
  }

  lemma {:induction false} NoUrlTimeoutsOfAll(causes: seq<Option<Error>>)
    requires !AnyUrl(causes)
    ensures TimeoutsOfAll(causes, true) == TimeoutsOfAll(causes, false)
    decreases causes
  {
    if causes == [] {
    } else {
      AnySplit(causes, 0, false);
      NoUrlTimeoutsOf(causes[0]);
      NoUrlTimeoutsOfAll(causes[1..]);
    }
  }

  /** Sanitizing keeps every wrapper that reports a timeout, except those it made
      itself in an earlier pass over a tree that has a URL below them. */
  lemma {:induction false} TimeoutsKept(e: Error)
    ensures Timeouts(Sanitize(e).1, false) == Timeouts(e, true)
    decreases e
  {
    ChangedIffUrl(e);
    if !HasUrl(e) {
      NoUrlTimeouts(e);
    } else {
      match e
      case UrlError(_, _, _, cause) => TimeoutsKeptOf(cause);
      case OpError(_, _, cause) => TimeoutsKeptOf(cause);
      case Multi(_, _, causes) => TimeoutsKeptOfAll(causes);
      case Wrap(_, _, _, cause) => TimeoutsKeptOf(cause);
      case Sanitized(_, _, cause) => TimeoutsKeptOf(cause);
    }
  }

  lemma {:induction false} TimeoutsKeptOf(o: Option<Error>)
    ensures TimeoutsOf(SanitizeOption(o).1, false) == TimeoutsOf(o, true)
    decreases o, 1
  {
    if o.Some? { TimeoutsKept(o.value); }
  }

  lemma {:induction false} TimeoutsKeptOfAll(causes: seq<Option<Error>>)
    ensures TimeoutsOfAll(SanitizeAll(causes).1, false) == TimeoutsOfAll(causes, true)
    decreases causes
  {
    if causes == [] {
    } else {
      TimeoutsKeptOf(causes[0]);
      TimeoutsKeptOfAll(causes[1..]);
      var head, tail := SanitizeOption(causes[0]).1, SanitizeAll(causes[1..]).1;
      if head.Some? {
        assert ([head] + tail)[1..] == tail;
      } else {
        assert [] + tail == tail;
      }
    }
  }

  /** The guard is needed: a multi-error with its own Is loses that match. */
  lemma MultiWithIsLosesMatch() returns (e: Error)
    ensures Is(e, 7) && !Is(Sanitize(e).1, 7)
  {
    var url := UrlError(Given(1), "Get", Unparsed("http://u:p@h"), None);
    e := Multi(Given(2), Some({7}), [Some(url)]);
    assert HasUrl(e) by { assert e.causes[0].Some? && HasUrl(e.causes[0].value); }
    assert !Matches(e, 7, true);
    ClassifiedAlike(e, 7);
  }
}
