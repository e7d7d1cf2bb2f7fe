/** What every fluent call leaves in the builder, name by name: header values with
    their disclosure tags, ordered values, form fields and the selected body. */
module BuilderEffects {
  import opened Base
  import opened Headers
  import opened Sorting
  import opened OrderedHeaders
  import opened Builder
  import Body

  // ----------------------------------------------------------------- readings

  /** The ordered values under a name; nothing without an ordered object. */
  function Listed(s: State, name: Text): seq<Text> {
    if s.ordered.Some? then OrderedValues(s.ordered.value, name) else []
  }

  predicate Names(keys: seq<Text>, name: Text) {
    exists i :: 0 <= i < |keys| && EqualFold(keys[i], name)
  }

  /** Everything filed under a name is untouched. */
  predicate SameUnder(s: State, t: State, name: Text) {
    Tagged(t.headers, name) == Tagged(s.headers, name) && Listed(t, name) == Listed(s, name)
  }

  /** The name has exactly these values, in both containers. */
  predicate HasUnder(t: State, name: Text, values: seq<Value>) {
    && Tagged(t.headers, name) == values
    && (t.ordered.Some? ==>
          && |Listed(t, name)| == |values|
          && forall i :: 0 <= i < |values| ==> Listed(t, name)[i] == values[i].raw)
  }

  /** The builder no longer owns its Content-Type exactly when a call named it. */
  predicate DisownsIf(s: State, t: State, touched: bool) {
    t.body == if touched then s.body.(generated := false) else s.body
  }

  lemma NamesFolds(keys: seq<Text>, name: Text)
    ensures Names(keys, name) <==> Fold(name) in FoldSet(keys)
  {
  }

  // ------------------------------------------------------------- header calls

  lemma PutHeaderTags(s: State, key: Text, value: Value, name: Text)
    ensures Tagged(PutHeader(s, key, value).headers, name) ==
            if EqualFold(key, name) then [value] else Tagged(s.headers, name)
  {
    CanonicalKeepsFold(key);
    var one := [Named(Canonical(key), value)];
    TaggedConcat(Without(s.headers, {Fold(key)}), one, name);
    TaggedWithout(s.headers, {Fold(key)}, name);
    assert one[1..] == [];
  }

  lemma PutHeaderUnder(s: State, key: Text, value: Value, name: Text)
    requires Inv(s)
    ensures
      var t := PutHeader(s, key, value);
      && t.body == s.body && t.ordered.Some? == s.ordered.Some?
      && if EqualFold(key, name) then HasUnder(t, name, [value]) else SameUnder(s, t, name)
  {
    PutHeaderTags(s, key, value, name);
    if s.ordered.Some? {
      SetValuesMeaning(s.ordered.value, key, [value.raw], name);
    }
  }

  /** Header and HeaderValue: the name has exactly the given value, with its tag. */
  lemma SetHeaderEffect(s: State, key: Text, value: Value, name: Text)
    requires Inv(s)
    ensures
      var t := Step(s, SetHeader(key, value));
      && t.ordered.Some? == s.ordered.Some? && DisownsIf(s, t, EqualFold(key, "Content-Type"))
      && if EqualFold(key, name) then HasUnder(t, name, [value]) else SameUnder(s, t, name)
  {
    PutHeaderUnder(s, key, value, name);
  }

  lemma AppendHeaderTags(s: State, key: Text, value: Value, name: Text)
    ensures Tagged(AppendHeader(s, key, value).headers, name) ==
            Tagged(s.headers, name) + if EqualFold(key, name) then [value] else []
  {
    CanonicalKeepsFold(key);
    var one := [Named(Canonical(key), value)];
    TaggedConcat(s.headers, one, name);
    assert one[1..] == [];
  }

  /** AddHeader and AddHeaderValue: the name keeps its values and gets one more. */
  lemma AddHeaderEffect(s: State, key: Text, value: Value, name: Text)
    requires Inv(s)
    ensures
      var t := Step(s, AddHeader(key, value));
      && t.ordered.Some? == s.ordered.Some? && DisownsIf(s, t, EqualFold(key, "Content-Type"))
      && (!EqualFold(key, name) ==> SameUnder(s, t, name))
      && (EqualFold(key, name) ==> Tagged(t.headers, name) == Tagged(s.headers, name) + [value])
      && (EqualFold(key, name) && s.ordered.Some? ==> Listed(t, name) == Listed(s, name) + [value.raw])
  {
    AppendHeaderTags(s, key, value, name);
    if s.ordered.Some? {
      AddValueMeaning(s.ordered.value, key, value.raw, name);
    }
  }

  lemma ReplaceHeaderTags(s: State, e: Entry, name: Text)
    ensures Tagged(ReplaceHeader(s, e).headers, name) ==
            if EqualFold(e.key, name) then Privates(e.values) else Tagged(s.headers, name)
  {
    TaggedConcat(Without(s.headers, {Fold(e.key)}), Occurrences(e.key, e.values), name);
    TaggedWithout(s.headers, {Fold(e.key)}, name);
    TaggedOccurrences(e.key, e.values, name);
  }

  lemma ReplaceHeaderUnder(s: State, e: Entry, name: Text)
    requires Inv(s)
    ensures
      var t := ReplaceHeader(s, e);
      && t.ordered.Some? == s.ordered.Some? && DisownsIf(s, t, EqualFold(e.key, "Content-Type"))
      && if EqualFold(e.key, name) then HasUnder(t, name, Privates(e.values)) else SameUnder(s, t, name)
  {
    ReplaceHeaderTags(s, e, name);
    if s.ordered.Some? {
      SetValuesMeaning(s.ordered.value, e.key, e.values, name);
    }
  }

  predicate InBatch(batch: seq<Entry>, name: Text) {
    exists i :: 0 <= i < |batch| && EqualFold(batch[i].key, name)
  }

  /** Headers: in the iteration order at hand the last entry of a name decides, and
      its values are private; names outside the batch are untouched. */
  lemma {:induction false} SetHeadersEffect(s: State, batch: seq<Entry>, name: Text)
    requires Inv(s)
    ensures
      var t := Step(s, SetHeaders(batch));
      && t.ordered.Some? == s.ordered.Some? && DisownsIf(s, t, InBatch(batch, "Content-Type"))
      && (!InBatch(batch, name) ==> SameUnder(s, t, name))
      && forall i :: 0 <= i < |batch| && EqualFold(batch[i].key, name) && !InBatch(batch[i + 1..], name) ==>
           HasUnder(t, name, Privates(batch[i].values))
    decreases |batch|
  {
    if batch == [] {
    } else {
      var u := ReplaceHeader(s, batch[0]);
      ReplaceHeaderUnder(s, batch[0], name);
      ReplaceHeaderKeepsInv(s, batch[0]);
      SetHeadersEffect(u, batch[1..], name);
      BatchSplit(batch, name);
      BatchSplit(batch, "Content-Type");
      forall i | 0 < i < |batch|
        ensures batch[i] == batch[1..][i - 1] && batch[i + 1..] == batch[1..][i..]
      {
      }
    }
  }

  lemma BatchSplit(batch: seq<Entry>, name: Text)
    requires batch != []
    ensures InBatch(batch, name) <==> EqualFold(batch[0].key, name) || InBatch(batch[1..], name)
  {
    assert forall i :: 0 < i < |batch| ==> batch[i] == batch[1..][i - 1];
  }

  lemma {:induction false} FlattenTags(o: Ordered, name: Text)
    ensures Tagged(Flatten(o), name) == if IsPseudo(name) then [] else Privates(OrderedValues(o, name))
  {
    if o == [] {
    } else {
      var head := if IsPseudo(o[0].key) then [] else Occurrences(o[0].key, o[0].values);
      TaggedConcat(head, Flatten(o[1..]), name);
      FlattenTags(o[1..], name);
      EntryTags(o[0], name);
      PrivatesConcat(if EqualFold(o[0].key, name) then o[0].values else [], OrderedValues(o[1..], name));
    }
  }

  lemma EntryTags(e: Entry, name: Text)
    ensures Tagged(if IsPseudo(e.key) then [] else Occurrences(e.key, e.values), name) ==
            if IsPseudo(name) || !EqualFold(e.key, name) then [] else Privates(e.values)
  {
    TaggedOccurrences(e.key, e.values, name);
    if EqualFold(e.key, name) {
      PseudoByFold(e.key, name);
    }
  }

  lemma PrivatesConcat(a: seq<Text>, b: seq<Text>)
    ensures Privates(a + b) == Privates(a) + Privates(b)
  {
  }

  /** OrderedHeaders: every name has the object's values, over all its entries and
      in their order, private in the list; pseudo names are in the object only. */
  lemma SetOrderedEffect(s: State, headers: Option<Ordered>, name: Text)
    ensures
      var t := Step(s, SetOrdered(headers));
      && t.ordered.Some? == headers.Some? && DisownsIf(s, t, true)
      && (headers.None? ==> t.headers == [])
      && (headers.Some? ==>
            && Listed(t, name) == OrderedValues(headers.value, name)
            && Tagged(t.headers, name) == if name != [] && name[0] == ':' then [] else Privates(OrderedValues(headers.value, name)))
  {
    if headers.Some? {
      CloneMeaning(headers.value, name);
      FlattenTags(Clone(headers.value), name);
    }
  }

  lemma RemoveHeadersUnder(s: State, keys: seq<Text>, name: Text)
    requires Inv(s)
    ensures
      var t := RemoveHeaders(s, keys);
      && t.body == s.body && t.ordered.Some? == s.ordered.Some?
      && if Names(keys, name) then HasUnder(t, name, []) else SameUnder(s, t, name)
  {
    NamesFolds(keys, name);
    TaggedWithout(s.headers, FoldSet(keys), name);
    if s.ordered.Some? {
      DeleteNamesMeaning(s.ordered.value, keys, name);
    }
  }

  /** DelHeader: the given names are gone, and nothing else. */
  lemma DelHeaderEffect(s: State, keys: seq<Text>, name: Text)
    requires Inv(s)
    ensures
      var t := Step(s, DelHeader(keys));
      && t.ordered.Some? == s.ordered.Some? && DisownsIf(s, t, Names(keys, "Content-Type"))
      && if Names(keys, name) then HasUnder(t, name, []) else SameUnder(s, t, name)
  {
    RemoveHeadersUnder(s, keys, name);
    NamesFolds(keys, CONTENT_TYPE);
  }

  // --------------------------------------------------------------- body calls

  /** The Content-Type a body choice brings along. */
  predicate Brings(choice: Body.Choice, ct: Text) {
    match choice
    case ChooseTyped(kind, _) =>
      && (kind == Body.JSON ==> ct == "application/json")
      && (kind == Body.XML ==> ct == "application/xml")
      && (kind == Body.YAML ==> ct == "application/yaml")
    case ChooseText(_) => ct == "text/plain"
    case ChooseBytes(_) => ct == []
    case ChooseReader(given, _, _) => ct == given
    case ChooseForm(_) => ct == "application/x-www-form-urlencoded"
    case ChooseMultipart(_) => ct == []
  }

  /** What a body choice leaves in the builder: the content with its tag, a typed
      value always private, and the flags delivery reads. */
  predicate Selected(choice: Body.Choice, body: Body.Plan) {
    && Brings(choice, body.contentType)
    && match choice
       case ChooseTyped(kind, value) => body.kind == kind && body.content == Private(value.raw) && body.generated
       case ChooseText(value) => body.kind == Body.PlainText && body.content == value && body.generated
       case ChooseBytes(value) => body.kind == Body.RawBytes && body.content == value && !body.generated
       case ChooseReader(given, length, isNil) =>
         && body.kind == Body.Reader && body.readerLength == length && body.nilReader == isNil
         && (body.generated <==> given != [])
       case ChooseForm(form) => body.kind == Body.Form && body.form == form && body.generated
       case ChooseMultipart(m) => body.kind == Body.MultipartForm && body.multipart == Some(m) && body.generated
  }

  /** The headers after a choice: its own Content-Type, private; without one, that
      of the previous body is gone and any other stays; other names are untouched. */
  predicate Installed(s: State, t: State, ct: Text, name: Text) {
    && t.ordered.Some? == s.ordered.Some?
    && if !EqualFold("Content-Type", name) then SameUnder(s, t, name)
       else if ct != [] then HasUnder(t, name, [Private(ct)])
       else if s.body.generated then HasUnder(t, name, [])
       else SameUnder(s, t, name)
  }

  lemma ChooseUnder(s: State, plan: Body.Plan, name: Text)
    requires Inv(s)
    ensures Choose(s, plan).body == plan && Installed(s, Choose(s, plan), plan.contentType, name)
  {
    RemoveHeadersUnder(s, [CONTENT_TYPE], name);
    RemoveHeadersCoupled(s, [CONTENT_TYPE]);
    assert Names([CONTENT_TYPE], name) <==> EqualFold("Content-Type", name) by {
      assert [CONTENT_TYPE][0] == CONTENT_TYPE;
    }
    var cleared := if s.body.generated then RemoveHeaders(s, [CONTENT_TYPE]) else s;
    if plan.contentType != [] {
      var chosen := cleared.(body := Body.NO_BODY);
      PutHeaderUnder(chosen, CONTENT_TYPE, Private(plan.contentType), name);
    }
  }

  /** Every body setter. */
  lemma SelectBodyEffect(s: State, choice: Body.Choice, name: Text)
    requires Inv(s) && Body.ValidChoice(choice)
    ensures
      var t := Step(s, SelectBody(choice));
      Selected(choice, t.body) && Installed(s, t, t.body.contentType, name)
  {
    ChooseUnder(s, Body.PlanFor(choice), name);
  }

  /** FormField, FormFieldValue and FormFields: the fields follow those of an active
      form, tags included; another body is replaced by a form first. */
  lemma FormFieldsEffect(s: State, fields: seq<Occurrence>, name: Text)
    requires Inv(s)
    ensures
      var t := Step(s, FormFields(fields));
      && (s.body.kind == Body.Form ==>
            t.body == s.body.(form := s.body.form + fields) && t.headers == s.headers && t.ordered == s.ordered)
      && (s.body.kind != Body.Form ==>
            Selected(Body.ChooseForm(fields), t.body) && Installed(s, t, "application/x-www-form-urlencoded", name))
  {
    if s.body.kind != Body.Form {
      ChooseUnder(s, Body.PlanFor(Body.ChooseForm([])), name);
    }
  }

  lemma {:induction false} DropNamedValues(form: seq<Occurrence>, names: seq<Text>, name: Text)
    ensures ValuesFor(DropNamed(form, names), name) == if name in names then [] else ValuesFor(form, name)
  {
    if form == [] {
    } else {
      DropNamedValues(form[1..], names, name);
      ValuesForConcat(if form[0].name in names then [] else [form[0]], DropNamed(form[1..], names), name);
    }
  }

  /** DelFormField: the fields of the given names are gone, and every other name
      keeps its values in order with their tags. Other bodies are left alone. */
  lemma DelFormFieldEffect(s: State, names: seq<Text>, name: Text)
    ensures
      var t := Step(s, DelFormField(names));
      && t.headers == s.headers && t.ordered == s.ordered && t.body == s.body.(form := t.body.form)
      && (s.body.kind != Body.Form ==> t == s)
      && (s.body.kind == Body.Form ==>
            ValuesFor(t.body.form, name) == if name in names then [] else ValuesFor(s.body.form, name))
  {
    DropNamedValues(s.body.form, names, name);
  }

  // ------------------------------------------------------------ spelled names

  /** Every name in the list is spelled canonically. */
  predicate Spelled(headers: seq<Occurrence>) {
    headers == [] || (Canonical(headers[0].name) == headers[0].name && Spelled(headers[1..]))
  }

  lemma {:induction false} SpelledConcat(a: seq<Occurrence>, b: seq<Occurrence>)
    requires Spelled(a) && Spelled(b)
    ensures Spelled(a + b)
  {
    if a == [] {
      assert a + b == b;
    } else {
      assert (a + b)[0] == a[0] && (a + b)[1..] == a[1..] + b;
      SpelledConcat(a[1..], b);
    }
  }

  lemma SpelledSingle(key: Text, value: Value)
    ensures Spelled([Named(Canonical(key), value)])
  {
    CanonicalSettled(key);
    assert [Named(Canonical(key), value)][1..] == [];
  }

  lemma {:induction false} SpelledWithout(headers: seq<Occurrence>, folds: set<Text>)
    requires Spelled(headers)
    ensures Spelled(Without(headers, folds))
  {
    if headers == [] {
    } else {
      SpelledWithout(headers[1..], folds);
      assert [headers[0]][1..] == [];
      SpelledConcat(if Fold(headers[0].name) in folds then [] else [headers[0]], Without(headers[1..], folds));
    }
  }

  lemma {:induction false} SpelledOccurrences(key: Text, values: seq<Text>)
    ensures Spelled(Occurrences(key, values))
    decreases |values|
  {
    if values == [] {
    } else {
      CanonicalSettled(key);
      assert Occurrences(key, values)[1..] == Occurrences(key, values[1..]);
      SpelledOccurrences(key, values[1..]);
    }
  }

  lemma {:induction false} SpelledFlatten(o: Ordered)
    ensures Spelled(Flatten(o))
  {
    if o == [] {
    } else {
      SpelledFlatten(o[1..]);
      SpelledOccurrences(o[0].key, o[0].values);
      SpelledConcat(if IsPseudo(o[0].key) then [] else Occurrences(o[0].key, o[0].values), Flatten(o[1..]));
    }
  }

  lemma SpelledPut(s: State, key: Text, value: Value)
    requires Spelled(s.headers)
    ensures Spelled(PutHeader(s, key, value).headers)
  {
    SpelledWithout(s.headers, {Fold(key)});
    SpelledSingle(key, value);
    SpelledConcat(Without(s.headers, {Fold(key)}), [Named(Canonical(key), value)]);
  }

  lemma SpelledAppend(s: State, key: Text, value: Value)
    requires Spelled(s.headers)
    ensures Spelled(AppendHeader(s, key, value).headers)
  {
    SpelledSingle(key, value);
    SpelledConcat(s.headers, [Named(Canonical(key), value)]);
  }

  lemma SpelledTake(s: State, headers: Option<Ordered>)
    ensures Spelled(TakeOrdered(s, headers).headers)
  {
    if headers.Some? {
      SpelledFlatten(Clone(headers.value));
    }
  }

  lemma SpelledRemove(s: State, keys: seq<Text>)
    requires Spelled(s.headers)
    ensures Spelled(RemoveHeaders(s, keys).headers)
  {
    SpelledWithout(s.headers, FoldSet(keys));
  }

  lemma SpelledForm(s: State)
    requires Spelled(s.headers)
    ensures Spelled(ActivateForm(s).headers)
  {
    SpelledChoose(s, Body.PlanFor(Body.ChooseForm([])));
  }

  lemma {:induction false} SpelledReplace(s: State, batch: seq<Entry>)
    requires Spelled(s.headers)
    ensures Spelled(ReplaceAll(s, batch).headers)
    decreases |batch|
  {
    if batch == [] {
    } else {
      SpelledWithout(s.headers, {Fold(batch[0].key)});
      SpelledOccurrences(batch[0].key, batch[0].values);
      SpelledConcat(Without(s.headers, {Fold(batch[0].key)}), Occurrences(batch[0].key, batch[0].values));
      SpelledReplace(ReplaceHeader(s, batch[0]), batch[1..]);
    }
  }

  lemma SpelledChoose(s: State, plan: Body.Plan)
    requires Spelled(s.headers)
    ensures Spelled(Choose(s, plan).headers)
  {
    SpelledWithout(s.headers, FoldSet([CONTENT_TYPE]));
    var cleared := if s.body.generated then RemoveHeaders(s, [CONTENT_TYPE]) else s;
    SpelledPut(cleared.(body := plan), CONTENT_TYPE, Private(plan.contentType));
  }

  lemma SpelledSet(s: State, key: Text, value: Value)
    requires Spelled(s.headers)
    ensures Spelled(Step(s, SetHeader(key, value)).headers)
  {
    SpelledPut(s, key, value);
  }

  lemma SpelledAdd(s: State, key: Text, value: Value)
    requires Spelled(s.headers)
    ensures Spelled(Step(s, AddHeader(key, value)).headers)
  {
    SpelledAppend(s, key, value);
  }

  lemma SpelledBatch(s: State, batch: seq<Entry>)
    requires Spelled(s.headers)
    ensures Spelled(Step(s, SetHeaders(batch)).headers)
  {
    SpelledReplace(s, batch);
  }

  lemma SpelledOrdered(s: State, headers: Option<Ordered>)
    ensures Spelled(Step(s, SetOrdered(headers)).headers)
  {
    SpelledTake(s, headers);
  }

  lemma SpelledDelete(s: State, keys: seq<Text>)
    requires Spelled(s.headers)
    ensures Spelled(Step(s, DelHeader(keys)).headers)
  {
    SpelledRemove(s, keys);
  }

  lemma SpelledSelect(s: State, choice: Body.Choice)
    requires Spelled(s.headers)
    ensures Spelled(Step(s, SelectBody(choice)).headers)
  {
    SpelledChoose(s, Body.PlanFor(choice));
  }

  lemma SpelledFields(s: State, fields: seq<Occurrence>)
    requires Spelled(s.headers)
    ensures Spelled(Step(s, FormFields(fields)).headers)
  {
    SpelledForm(s);
  }

  lemma SpelledDrop(s: State, names: seq<Text>)
    requires Spelled(s.headers)
    ensures Spelled(Step(s, DelFormField(names)).headers)
  {
  }

  lemma StepKeepsSpelled(s: State, op: Op)
    requires Spelled(s.headers)
    ensures Spelled(Step(s, op).headers)
  {
    match op
    case SetHeader(key, value) => SpelledSet(s, key, value);
    case AddHeader(key, value) => SpelledAdd(s, key, value);
    case SetHeaders(batch) => SpelledBatch(s, batch);
    case SetOrdered(headers) => SpelledOrdered(s, headers);
    case DelHeader(keys) => SpelledDelete(s, keys);
    case SelectBody(choice) => SpelledSelect(s, choice);
    case FormFields(fields) => SpelledFields(s, fields);
    case DelFormField(names) => SpelledDrop(s, names);
  }

  /** Whatever names the calls were given, the list holds canonical ones. */
  lemma {:induction false} ReachableSpelled(s: State, ops: seq<Op>)
    requires Spelled(s.headers)
    ensures Spelled(Run(s, ops).headers)
    decreases |ops|
  {
    if ops == [] {
    } else {
      StepKeepsSpelled(s, ops[0]);
      ReachableSpelled(Step(s, ops[0]), ops[1..]);
    }
  }
}
