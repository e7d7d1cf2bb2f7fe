/** The fluent request builder: a tagged header list, an optional ordered
    object kept in step with it, and one body selection whose generated
    Content-Type lives in both (request.go, body.go, request_metadata.go). */
module Builder {
  import opened Base
  import opened Headers
  import opened Sorting
  import opened OrderedHeaders
  import Body

  datatype State = State(headers: seq<Occurrence>, ordered: Option<Ordered>, body: Body.Plan)

  const INITIAL: State := State([], None, Body.NO_BODY)

  /** One fluent call. A Headers call carries the map in the order in which
      it happened to be iterated. */
  datatype Op =
    | SetHeader(key: Text, value: Value)
    | AddHeader(key: Text, value: Value)
    | SetHeaders(batch: seq<Entry>)
    | SetOrdered(headers: Option<Ordered>)
    | DelHeader(keys: seq<Text>)
    | SelectBody(choice: Body.Choice)
    | FormFields(fields: seq<Occurrence>)
    | DelFormField(names: seq<Text>)

  // ------------------------------------------------------- effect of a call

  predicate IsContentType(key: Text) {
    EqualFold(key, CONTENT_TYPE)
  }

  function Disown(s: State, touched: bool): State {
    if touched then s.(body := s.body.(generated := false)) else s
  }

  function PutHeader(s: State, key: Text, value: Value): State {
    s.(headers := Without(s.headers, {Fold(key)}) + [Named(Canonical(key), value)],
       ordered := if s.ordered.Some? then Some(SetValues(s.ordered.value, key, [value.raw])) else None)
  }

  function AppendHeader(s: State, key: Text, value: Value): State {
    s.(headers := s.headers + [Named(Canonical(key), value)],
       ordered := if s.ordered.Some? then Some(AddValue(s.ordered.value, key, value.raw)) else None)
  }

  function ReplaceHeader(s: State, e: Entry): State {
    Disown(
      s.(headers := Without(s.headers, {Fold(e.key)}) + Occurrences(e.key, e.values),
         ordered := if s.ordered.Some? then Some(SetValues(s.ordered.value, e.key, e.values)) else None),
      IsContentType(e.key))
  }

  function ReplaceAll(s: State, batch: seq<Entry>): State
    decreases |batch|
  {
    if batch == [] then s else ReplaceAll(ReplaceHeader(s, batch[0]), batch[1..])
  }

  function DeleteNames(o: Ordered, keys: seq<Text>): Ordered
    decreases |keys|
  {
    if keys == [] then o else DeleteNames(DeleteName(o, keys[0]), keys[1..])
  }

  function RemoveHeaders(s: State, keys: seq<Text>): State {
    s.(headers := Without(s.headers, FoldSet(keys)),
       ordered := if s.ordered.Some? then Some(DeleteNames(s.ordered.value, keys)) else None)
  }

  /** The list that an ordered object stands for: its non-pseudo entries. */
  function Flatten(o: Ordered): seq<Occurrence> {
    if o == [] then []
    else (if IsPseudo(o[0].key) then [] else Occurrences(o[0].key, o[0].values)) + Flatten(o[1..])
  }

  function TakeOrdered(s: State, headers: Option<Ordered>): State {
    var ordered := if headers.Some? then Some(Clone(headers.value)) else None;
    Disown(s, true).(ordered := ordered, headers := if ordered.Some? then Flatten(ordered.value) else [])
  }

  function Choose(s: State, plan: Body.Plan): State {
    var cleared := if s.body.generated then RemoveHeaders(s, [CONTENT_TYPE]) else s;
    var chosen := cleared.(body := plan);
    if plan.contentType != [] then PutHeader(chosen, CONTENT_TYPE, Private(plan.contentType)) else chosen
  }

  function ActivateForm(s: State): State {
    if s.body.kind == Body.Form then s else Choose(s, Body.PlanFor(Body.ChooseForm([])))
  }

  function DropNamed(form: seq<Occurrence>, names: seq<Text>): seq<Occurrence> {
    if form == [] then []
    else (if form[0].name in names then [] else [form[0]]) + DropNamed(form[1..], names)
  }

  function Step(s: State, op: Op): State {
    match op
    case SetHeader(key, value) => Disown(PutHeader(s, key, value), IsContentType(key))
    case AddHeader(key, value) => Disown(AppendHeader(s, key, value), IsContentType(key))
    case SetHeaders(batch) => ReplaceAll(s, batch)
    case SetOrdered(headers) => TakeOrdered(s, headers)
    case DelHeader(keys) => Disown(RemoveHeaders(s, keys), Fold(CONTENT_TYPE) in FoldSet(keys))
    case SelectBody(choice) => Choose(s, Body.PlanFor(choice))
    case FormFields(fields) =>
      var f := ActivateForm(s);
      f.(body := f.body.(form := f.body.form + fields))
    case DelFormField(names) =>
      if s.body.kind == Body.Form then s.(body := s.body.(form := DropNamed(s.body.form, names))) else s
  }

  predicate ValidOp(op: Op) {
    op.SelectBody? ==> Body.ValidChoice(op.choice)
  }

  function Run(s: State, ops: seq<Op>): State
    decreases |ops|
  {
    if ops == [] then s else Run(Step(s, ops[0]), ops[1..])
  }

  // --------------------------------------------------------------- invariant

  /** The ordered object and the header list agree on every non-pseudo name. */
  ghost predicate Coupled(headers: seq<Occurrence>, ordered: Option<Ordered>) {
    ordered.Some? ==>
      && FoldUnique(ordered.value)
      && forall name :: !IsPseudo(name) ==> OrderedValues(ordered.value, name) == ValuesOf(headers, name)
  }

  /** A generated media type is the one and only Content-Type value, and it is
      the one Prepare shows; only a multipart body generates it later. */
  predicate OwnsContentType(s: State) {
    s.body.generated ==>
      if s.body.kind == Body.MultipartForm then s.body.contentType == []
      else
        && s.body.contentType != []
        && ValuesOf(s.headers, CONTENT_TYPE) == [s.body.contentType]
        && (s.body.kind == Body.Reader || s.body.contentType == Body.MediaType(s.body.kind))
  }

  ghost predicate Inv(s: State) {
    Coupled(s.headers, s.ordered) && OwnsContentType(s)
  }

  lemma PseudoByFold(a: Text, b: Text)
    requires EqualFold(a, b)
    ensures IsPseudo(a) <==> IsPseudo(b)
  {
    FoldPointwise(a, b);
  }

  lemma PutHeaderValues(s: State, key: Text, value: Value, name: Text)
    ensures ValuesOf(PutHeader(s, key, value).headers, name) ==
            if EqualFold(key, name) then [value.raw] else ValuesOf(s.headers, name)
  {
    CanonicalKeepsFold(key);
    var one := [Named(Canonical(key), value)];
    ValuesOfConcat(Without(s.headers, {Fold(key)}), one, name);
    ValuesOfWithout(s.headers, {Fold(key)}, name);
    assert one[1..] == [];
  }

  lemma PutHeaderCoupled(s: State, key: Text, value: Value)
    requires Coupled(s.headers, s.ordered)
    ensures Coupled(PutHeader(s, key, value).headers, PutHeader(s, key, value).ordered)
  {
    if s.ordered.Some? {
      SetValuesMeaning(s.ordered.value, key, [value.raw], key);
      forall name | !IsPseudo(name)
        ensures OrderedValues(PutHeader(s, key, value).ordered.value, name) ==
                ValuesOf(PutHeader(s, key, value).headers, name)
      {
        SetValuesMeaning(s.ordered.value, key, [value.raw], name);
        PutHeaderValues(s, key, value, name);
      }
    }
  }

  lemma AppendHeaderValues(s: State, key: Text, value: Value, name: Text)
    ensures ValuesOf(AppendHeader(s, key, value).headers, name) ==
            ValuesOf(s.headers, name) + if EqualFold(key, name) then [value.raw] else []
  {
    CanonicalKeepsFold(key);
    var one := [Named(Canonical(key), value)];
    ValuesOfConcat(s.headers, one, name);
    assert one[1..] == [];
  }

  lemma AppendHeaderCoupled(s: State, key: Text, value: Value)
    requires Coupled(s.headers, s.ordered)
    ensures Coupled(AppendHeader(s, key, value).headers, AppendHeader(s, key, value).ordered)
  {
    if s.ordered.Some? {
      AddValueMeaning(s.ordered.value, key, value.raw, key);
      forall name | !IsPseudo(name)
        ensures OrderedValues(AppendHeader(s, key, value).ordered.value, name) ==
                ValuesOf(AppendHeader(s, key, value).headers, name)
      {
        AddValueMeaning(s.ordered.value, key, value.raw, name);
        AppendHeaderValues(s, key, value, name);
      }
    }
  }

  lemma ReplaceHeaderValues(s: State, e: Entry, name: Text)
    ensures ValuesOf(ReplaceHeader(s, e).headers, name) ==
            if EqualFold(e.key, name) then e.values else ValuesOf(s.headers, name)
  {
    ValuesOfConcat(Without(s.headers, {Fold(e.key)}), Occurrences(e.key, e.values), name);
    ValuesOfWithout(s.headers, {Fold(e.key)}, name);
    ValuesOfOccurrences(e.key, e.values, name);
  }

  lemma ReplaceHeaderKeepsInv(s: State, e: Entry)
    requires Inv(s)
    ensures Inv(ReplaceHeader(s, e))
  {
    var r := ReplaceHeader(s, e);
    if s.ordered.Some? {
      SetValuesMeaning(s.ordered.value, e.key, e.values, e.key);
      forall name | !IsPseudo(name)
        ensures OrderedValues(r.ordered.value, name) == ValuesOf(r.headers, name)
      {
        SetValuesMeaning(s.ordered.value, e.key, e.values, name);
        ReplaceHeaderValues(s, e, name);
      }
    }
    ReplaceHeaderValues(s, e, CONTENT_TYPE);
  }

  lemma {:induction false} ReplaceAllKeepsInv(s: State, batch: seq<Entry>)
    requires Inv(s)
    ensures Inv(ReplaceAll(s, batch))
    decreases |batch|
  {
    if batch == [] {
    } else {
      ReplaceHeaderKeepsInv(s, batch[0]);
      ReplaceAllKeepsInv(ReplaceHeader(s, batch[0]), batch[1..]);
    }
  }

  lemma {:induction false} DeleteNamesMeaning(o: Ordered, keys: seq<Text>, name: Text)
    requires FoldUnique(o)
    ensures FoldUnique(DeleteNames(o, keys))
    ensures OrderedValues(DeleteNames(o, keys), name) ==
            if Fold(name) in FoldSet(keys) then [] else OrderedValues(o, name)
    decreases |keys|
  {
    if keys == [] {
    } else {
      DeleteNameMeaning(o, keys[0], name);
      DeleteNamesMeaning(DeleteName(o, keys[0]), keys[1..], name);
      FoldSetSplit(keys);
    }
  }

  lemma FoldSetSplit(keys: seq<Text>)
    requires keys != []
    ensures FoldSet(keys) == FoldSet(keys[1..]) + {Fold(keys[0])}
  {
    forall f | f in FoldSet(keys)
      ensures f in {Fold(keys[0])} + FoldSet(keys[1..])
    {
      var i :| 0 <= i < |keys| && f == Fold(keys[i]);
      if i > 0 {
        assert keys[1..][i - 1] == keys[i];
      }
    }
  }

  lemma RemoveHeadersCoupled(s: State, keys: seq<Text>)
    requires Coupled(s.headers, s.ordered)
    ensures Coupled(RemoveHeaders(s, keys).headers, RemoveHeaders(s, keys).ordered)
  {
    if s.ordered.Some? {
      DeleteNamesMeaning(s.ordered.value, keys, CONTENT_TYPE);
      forall name | !IsPseudo(name)
        ensures OrderedValues(RemoveHeaders(s, keys).ordered.value, name) ==
                ValuesOf(RemoveHeaders(s, keys).headers, name)
      {
        DeleteNamesMeaning(s.ordered.value, keys, name);
        ValuesOfWithout(s.headers, FoldSet(keys), name);
      }
    }
  }

  lemma {:induction false} FlattenValues(o: Ordered, name: Text)
    requires !IsPseudo(name)
    ensures ValuesOf(Flatten(o), name) == OrderedValues(o, name)
  {
    if o == [] {
    } else {
      var head := if IsPseudo(o[0].key) then [] else Occurrences(o[0].key, o[0].values);
      ValuesOfConcat(head, Flatten(o[1..]), name);
      FlattenValues(o[1..], name);
      ValuesOfOccurrences(o[0].key, o[0].values, name);
      if EqualFold(o[0].key, name) {
        PseudoByFold(o[0].key, name);
      }
    }
  }

  lemma TakeOrderedKeepsInv(s: State, headers: Option<Ordered>)
    ensures Inv(TakeOrdered(s, headers))
  {
    var r := TakeOrdered(s, headers);
    if r.ordered.Some? {
      CloneMeaning(headers.value, CONTENT_TYPE);
      forall name | !IsPseudo(name)
        ensures OrderedValues(r.ordered.value, name) == ValuesOf(r.headers, name)
      {
        FlattenValues(r.ordered.value, name);
      }
    }
  }

  /** Selecting a body removes the Content-Type the previous body generated and
      installs its own, in both containers. */
  lemma ChooseKeepsInv(s: State, plan: Body.Plan)
    requires Coupled(s.headers, s.ordered)
    requires plan.generated ==> plan.contentType != [] || plan.kind == Body.MultipartForm
    requires plan.generated && plan.kind != Body.MultipartForm ==>
               plan.kind == Body.Reader || plan.contentType == Body.MediaType(plan.kind)
    requires plan.kind == Body.MultipartForm ==> plan.contentType == []
    ensures Inv(Choose(s, plan))
  {
    var cleared := if s.body.generated then RemoveHeaders(s, [CONTENT_TYPE]) else s;
    if s.body.generated {
      RemoveHeadersCoupled(s, [CONTENT_TYPE]);
    }
    var chosen := cleared.(body := plan);
    if plan.contentType != [] {
      PutHeaderCoupled(chosen, CONTENT_TYPE, Private(plan.contentType));
      PutHeaderValues(chosen, CONTENT_TYPE, Private(plan.contentType), CONTENT_TYPE);
    }
  }

  lemma StepKeepsInv(s: State, op: Op)
    requires Inv(s) && ValidOp(op)
    ensures Inv(Step(s, op))
  {
    match op
    case SetHeader(key, value) =>
      PutHeaderCoupled(s, key, value);
      PutHeaderValues(s, key, value, CONTENT_TYPE);
    case AddHeader(key, value) =>
      AppendHeaderCoupled(s, key, value);
      AppendHeaderValues(s, key, value, CONTENT_TYPE);
    case SetHeaders(batch) => ReplaceAllKeepsInv(s, batch);
    case SetOrdered(headers) => TakeOrderedKeepsInv(s, headers);
    case DelHeader(keys) =>
      RemoveHeadersCoupled(s, keys);
      ValuesOfWithout(s.headers, FoldSet(keys), CONTENT_TYPE);
    case SelectBody(choice) => ChooseKeepsInv(s, Body.PlanFor(choice));
    case FormFields(_) =>
      if s.body.kind != Body.Form {
        ChooseKeepsInv(s, Body.PlanFor(Body.ChooseForm([])));
      }
    case DelFormField(_) =>
  }

  /** Every reachable builder state keeps both invariants. */
  lemma {:induction false} ReachableInv(s: State, ops: seq<Op>)
    requires Inv(s)
    requires forall i :: 0 <= i < |ops| ==> ValidOp(ops[i])
    ensures Inv(Run(s, ops))
    decreases |ops|
  {
    if ops == [] {
    } else {
      StepKeepsInv(s, ops[0]);
      ReachableInv(Step(s, ops[0]), ops[1..]);
    }
  }

  lemma InitialInv()
    ensures Inv(INITIAL)
  {
  }

  /** Both invariants hold in every state a new builder can reach. */
  lemma ReachableFromNew(ops: seq<Op>)
    requires forall i :: 0 <= i < |ops| ==> ValidOp(ops[i])
    ensures Inv(Run(INITIAL, ops))
  {
    InitialInv();
    ReachableInv(INITIAL, ops);
  }
}
