/** The builder and the client as the objects the program mutates. */
module BuilderObject {
  import opened Base
  import opened Headers
  import opened Sorting
  import opened OrderedHeaders
  import Body
  import B = Builder

  /** The header list after the in-order scan that drops the given names. */
  method KeepOthers(headers: seq<Occurrence>, names: seq<Text>) returns (kept: seq<Occurrence>)
    ensures kept == Without(headers, FoldSet(names))
  {
    kept := [];
    for i := 0 to |headers|
      invariant kept + Without(headers[i..], FoldSet(names)) == Without(headers, FoldSet(names))
    {
      var deleted := false;
      var j := 0;
      while j < |names| && !deleted
        invariant 0 <= j <= |names|
        invariant deleted <==> exists k :: 0 <= k < j && Fold(names[k]) == Fold(headers[i].name)
      {
        deleted := EqualFold(headers[i].name, names[j]);
        j := j + 1;
      }
      assert deleted <==> Fold(headers[i].name) in FoldSet(names);
      assert headers[i..][1..] == headers[i + 1..];
      if !deleted {
        kept := kept + [headers[i]];
      }
    }
    assert headers[|headers|..] == [];
  }

  /** The addHeader loop over one name's values. */
  method AppendValues(headers: seq<Occurrence>, key: Text, values: seq<Text>) returns (longer: seq<Occurrence>)
    ensures longer == headers + Occurrences(key, values)
  {
    longer := headers;
    for j := 0 to |values|
      invariant longer == headers + Occurrences(key, values)[..j]
    {
      longer := longer + [Named(Canonical(key), Private(values[j]))];
    }
  }

  /** One step of the scan that drops the named fields. */
  lemma DropStep(kept: seq<Occurrence>, form: seq<Occurrence>, i: nat, names: seq<Text>)
    requires i < |form|
    ensures kept + B.DropNamed(form[i..], names) ==
            (if form[i].name in names then kept else kept + [form[i]]) + B.DropNamed(form[i + 1..], names)
  {
    assert form[i..][0] == form[i] && form[i..][1..] == form[i + 1..];
    ConcatAssociates(kept, [form[i]], B.DropNamed(form[i + 1..], names));
  }

  /** slices.DeleteFunc on the form fields. */
  method KeepFields(form: seq<Occurrence>, names: seq<Text>) returns (kept: seq<Occurrence>)
    ensures kept == B.DropNamed(form, names)
  {
    kept := [];
    for i := 0 to |form|
      invariant kept + B.DropNamed(form[i..], names) == B.DropNamed(form, names)
    {
      DropStep(kept, form, i, names);
      if form[i].name !in names {
        kept := kept + [form[i]];
      }
    }
    assert form[|form|..] == [];
  }

  class RequestBuilder {
    var headers: seq<Occurrence>
    var ordered: Option<Ordered>
    var body: Body.Plan

    ghost function State(): B.State
      reads this
    {
      B.State(headers, ordered, body)
    }

    ghost predicate Valid()
      reads this
    {
      B.Inv(State())
    }

    constructor ()
      ensures State() == B.INITIAL && Valid()
    {
      headers, ordered, body := [], None, Body.NO_BODY;
    }

    method DelHeaders(keys: seq<Text>)
      modifies this
      ensures State() == B.RemoveHeaders(old(State()), keys)
    {
      headers := KeepOthers(headers, keys);
      if ordered.Some? {
        var o := ordered.value;
        for i := 0 to |keys|
          invariant B.DeleteNames(o, keys[i..]) == B.DeleteNames(ordered.value, keys)
        {
          assert keys[i..][1..] == keys[i + 1..];
          o := DeleteName(o, keys[i]);
        }
        ordered := Some(o);
      }
    }

    method PutHeader(key: Text, value: Value)
      modifies this
      ensures State() == B.PutHeader(old(State()), key, value)
    {
      assert FoldSet([key]) == {Fold(key)} by { B.FoldSetSplit([key]); }
      headers := KeepOthers(headers, [key]);
      headers := headers + [Named(Canonical(key), value)];
      if ordered.Some? {
        ordered := Some(SetValues(ordered.value, key, [value.raw]));
      }
    }

    method Header(key: Text, text: Text)
      requires Valid()
      modifies this
      ensures State() == B.Step(old(State()), B.SetHeader(key, Private(text))) && Valid()
    {
      HeaderValue(key, Private(text));
    }

    method HeaderValue(key: Text, value: Value)
      requires Valid()
      modifies this
      ensures State() == B.Step(old(State()), B.SetHeader(key, value)) && Valid()
    {
      B.StepKeepsInv(State(), B.SetHeader(key, value));
      PutHeader(key, value);
      if EqualFold(key, CONTENT_TYPE) {
        body := body.(generated := false);
      }
    }

    method AddHeader(key: Text, text: Text)
      requires Valid()
      modifies this
      ensures State() == B.Step(old(State()), B.AddHeader(key, Private(text))) && Valid()
    {
      AddHeaderValue(key, Private(text));
    }

    method AddHeaderValue(key: Text, value: Value)
      requires Valid()
      modifies this
      ensures State() == B.Step(old(State()), B.AddHeader(key, value)) && Valid()
    {
      B.StepKeepsInv(State(), B.AddHeader(key, value));
      headers := headers + [Named(Canonical(key), value)];
      if ordered.Some? {
        ordered := Some(AddValue(ordered.value, key, value.raw));
      }
      if EqualFold(key, CONTENT_TYPE) {
        body := body.(generated := false);
      }
    }

    method DelHeader(keys: seq<Text>)
      requires Valid()
      modifies this
      ensures State() == B.Step(old(State()), B.DelHeader(keys)) && Valid()
    {
      B.StepKeepsInv(State(), B.DelHeader(keys));
      DelHeaders(keys);
      var kept := body;
      for i := 0 to |keys|
        invariant headers == B.RemoveHeaders(old(State()), keys).headers
        invariant ordered == B.RemoveHeaders(old(State()), keys).ordered
        invariant body == if exists k :: 0 <= k < i && Fold(keys[k]) == Fold(CONTENT_TYPE)
                          then kept.(generated := false) else kept
      {
        if EqualFold(keys[i], CONTENT_TYPE) {
          body := body.(generated := false);
        }
      }
    }

    /** Headers, for one iteration order of the argument map. */
    method SetHeaders(batch: seq<Entry>)
      requires Valid()
      modifies this
      ensures State() == B.Step(old(State()), B.SetHeaders(batch)) && Valid()
    {
      B.StepKeepsInv(State(), B.SetHeaders(batch));
      for i := 0 to |batch|
        invariant B.ReplaceAll(State(), batch[i..]) == B.ReplaceAll(old(State()), batch)
      {
        var e := batch[i];
        ghost var before := State();
        assert batch[i..][1..] == batch[i + 1..];
        assert FoldSet([e.key]) == {Fold(e.key)} by { B.FoldSetSplit([e.key]); }
        headers := KeepOthers(headers, [e.key]);
        headers := AppendValues(headers, e.key, e.values);
        if ordered.Some? {
          ordered := Some(SetValues(ordered.value, e.key, e.values));
        }
        if EqualFold(e.key, CONTENT_TYPE) {
          body := body.(generated := false);
        }
        assert State() == B.ReplaceHeader(before, e);
      }
    }

    method SetOrdered(source: Option<Ordered>)
      modifies this
      ensures State() == B.Step(old(State()), B.SetOrdered(source)) && Valid()
    {
      B.TakeOrderedKeepsInv(State(), source);
      body := body.(generated := false);
      headers, ordered := [], None;
      if source.Some? {
        var clone := CloneOrdered(source.value);
        ordered := Some(clone);
        headers := FlattenList(clone);
      }
    }

    method SelectBody(plan: Body.Plan)
      modifies this
      ensures State() == B.Choose(old(State()), plan)
    {
      if body.generated {
        DelHeaders([CONTENT_TYPE]);
      }
      body := plan;
      if plan.contentType != [] {
        PutHeader(CONTENT_TYPE, Private(plan.contentType));
      }
    }

    /** Every body setter: build its plan and select it. */
    method Choose(choice: Body.Choice)
      requires Valid() && Body.ValidChoice(choice)
      modifies this
      ensures State() == B.Step(old(State()), B.SelectBody(choice)) && Valid()
    {
      B.StepKeepsInv(State(), B.SelectBody(choice));
      SelectBody(Body.PlanFor(choice));
    }

    /** FormFieldValue and FormFields; parsed fields are private. */
    method FormFields(fields: seq<Occurrence>)
      requires Valid()
      modifies this
      ensures State() == B.Step(old(State()), B.FormFields(fields)) && Valid()
    {
      B.StepKeepsInv(State(), B.FormFields(fields));
      if body.kind != Body.Form {
        SelectBody(Body.PlanFor(Body.ChooseForm([])));
      }
      var start := body;
      for i := 0 to |fields|
        invariant headers == B.ActivateForm(old(State())).headers
        invariant ordered == B.ActivateForm(old(State())).ordered
        invariant body == start.(form := start.form + fields[..i])
      {
        assert fields[..i + 1] == fields[..i] + [fields[i]];
        ConcatAssociates(start.form, fields[..i], [fields[i]]);
        body := body.(form := body.form + [fields[i]]);
      }
      assert fields[..|fields|] == fields;
    }

    method FormField(key: Text, text: Text)
      requires Valid()
      modifies this
      ensures State() == B.Step(old(State()), B.FormFields([Named(key, Private(text))])) && Valid()
    {
      FormFields([Named(key, Private(text))]);
    }

    method DelFormField(names: seq<Text>)
      requires Valid()
      modifies this
      ensures State() == B.Step(old(State()), B.DelFormField(names)) && Valid()
    {
      B.StepKeepsInv(State(), B.DelFormField(names));
      if body.kind == Body.Form {
        var kept := KeepFields(body.form, names);
        body := body.(form := kept);
      }
    }
  }

  lemma {:induction false} FlattenSnoc(o: Ordered, e: Entry)
    ensures B.Flatten(o + [e]) == B.Flatten(o) + if IsPseudo(e.key) then [] else Occurrences(e.key, e.values)
  {
    if o == [] {
      assert o + [e] == [e] && [e][1..] == [];
    } else {
      assert (o + [e])[1..] == o[1..] + [e];
      FlattenSnoc(o[1..], e);
    }
  }

  /** The header list that an ordered object stands for, built entry by entry. */
  method FlattenList(o: Ordered) returns (headers: seq<Occurrence>)
    ensures headers == B.Flatten(o)
  {
    headers := [];
    for i := 0 to |o|
      invariant headers == B.Flatten(o[..i])
    {
      var e := o[i];
      assert o[..i + 1] == o[..i] + [e];
      FlattenSnoc(o[..i], e);
      if !IsPseudo(e.key) {
        headers := AppendValues(headers, e.key, e.values);
      }
    }
    assert o[..|o|] == o;
  }

  /** The client's default headers. */
  class Client {
    var headers: seq<Occurrence>
    var ordered: Option<Ordered>

    ghost predicate Valid()
      reads this
    {
      B.Coupled(headers, ordered)
    }

    constructor ()
      ensures Valid() && headers == [] && ordered == None
    {
      headers, ordered := [], None;
    }

    /** setDefaultHeaders, for one iteration order of the argument map. */
    method SetDefaultHeaders(batch: seq<Entry>)
      modifies this
      ensures Valid() && ordered == None
      ensures headers == B.ReplaceAll(B.INITIAL, batch).headers
    {
      headers, ordered := [], None;
      ghost var s := B.INITIAL;
      for i := 0 to |batch|
        invariant s.headers == headers && s.ordered == None && ordered == None
        invariant B.ReplaceAll(s, batch[i..]) == B.ReplaceAll(B.INITIAL, batch)
      {
        var e := batch[i];
        assert batch[i..][1..] == batch[i + 1..];
        assert FoldSet([e.key]) == {Fold(e.key)} by { B.FoldSetSplit([e.key]); }
        headers := KeepOthers(headers, [e.key]);
        headers := AppendValues(headers, e.key, e.values);
        s := B.ReplaceHeader(s, e);
      }
    }

    method SetDefaultOrderedHeaders(source: Option<Ordered>)
      modifies this
      ensures Valid()
      ensures ordered == (if source.Some? then Some(Clone(source.value)) else None)
      ensures headers == (if source.Some? then B.Flatten(Clone(source.value)) else [])
    {
      B.TakeOrderedKeepsInv(B.INITIAL, source);
      headers, ordered := [], None;
      if source.Some? {
        var clone := CloneOrdered(source.value);
        ordered := Some(clone);
        headers := FlattenList(clone);
      }
    }

    method SetDefaultHeader(key: Text, value: Text)
      requires Valid()
      modifies this
      ensures Valid()
      ensures headers == Without(old(headers), {Fold(key)}) + [Named(Canonical(key), Private(value))]
      ensures ordered == if old(ordered).Some? then Some(SetValues(old(ordered).value, key, [value])) else None
    {
      B.PutHeaderCoupled(B.State(headers, ordered, Body.NO_BODY), key, Private(value));
      assert FoldSet([key]) == {Fold(key)} by { B.FoldSetSplit([key]); }
      headers := KeepOthers(headers, [key]);
      headers := headers + [Named(Canonical(key), Private(value))];
      if ordered.Some? {
        ordered := Some(SetValues(ordered.value, key, [value]));
      }
    }
  }
}
