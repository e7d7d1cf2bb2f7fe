/** Snapshot isolation: what a plan or client snapshot copied stays as it was,
    although the builder keeps appending to, compacting and clearing its own
    arrays and changing its parameter map in place. */
module Snapshot {
  import opened Base
  import opened Headers
  import opened Sorting
  import opened OrderedHeaders
  import opened Slices

  /** The values a holder of metadata currently has. */
  datatype Lists = Lists(
    queries: seq<Occurrence>, headers: seq<Occurrence>, cookies: seq<Occurrence>, form: seq<Occurrence>,
    params: map<Text, Value>)

  datatype Op =
    | AddQuery(o: Occurrence) | DeleteQueries(names: seq<Text>)
    | AddHeader(o: Occurrence) | DeleteHeaders(names: seq<Text>)
    | AddCookie(o: Occurrence) | DeleteCookies(names: seq<Text>)
    | AddField(o: Occurrence) | DeleteFields(names: seq<Text>)
    | SetParam(name: Text, value: Value) | DeleteParam(name: Text)
    | ResetHeaders | ResetForm

  predicate IsDelete(op: Op) {
    op.DeleteQueries? || op.DeleteHeaders? || op.DeleteCookies? || op.DeleteFields?
  }

  predicate IsAdd(op: Op) {
    op.AddQuery? || op.AddHeader? || op.AddCookie? || op.AddField?
  }

  function InNames(names: seq<Text>): Occurrence -> bool {
    (o: Occurrence) => o.name in names
  }

  function InNamesFold(names: seq<Text>): Occurrence -> bool {
    (o: Occurrence) => Fold(o.name) in FoldSet(names)
  }

  function Step(v: Lists, op: Op): Lists {
    match op
    case AddQuery(o) => v.(queries := v.queries + [o])
    case DeleteQueries(names) => v.(queries := Kept(v.queries, InNames(names)))
    case AddHeader(o) => v.(headers := v.headers + [o])
    case DeleteHeaders(names) => v.(headers := Kept(v.headers, InNamesFold(names)))
    case AddCookie(o) => v.(cookies := v.cookies + [o])
    case DeleteCookies(names) => v.(cookies := Kept(v.cookies, InNames(names)))
    case AddField(o) => v.(form := v.form + [o])
    case DeleteFields(names) => v.(form := Kept(v.form, InNames(names)))
    case SetParam(name, value) => v.(params := v.params[name := value])
    case DeleteParam(name) => v.(params := v.params - {name})
    case ResetHeaders => v.(headers := [])
    case ResetForm => v.(form := [])
  }

  function Run(v: Lists, ops: seq<Op>): Lists
    decreases |ops|
  {
    if ops == [] then v else Run(Step(v, ops[0]), ops[1..])
  }

  /** The in-place header deletion is the stable filter the builder is specified by. */
  lemma {:induction false} KeptIsWithout(headers: seq<Occurrence>, names: seq<Text>)
    ensures Kept(headers, InNamesFold(names)) == Without(headers, FoldSet(names))
    decreases |headers|
  {
    if headers == [] {
    } else {
      var front, last := headers[..|headers| - 1], headers[|headers| - 1];
      KeptIsWithout(front, names);
      WithoutConcat(front, [last], FoldSet(names));
      assert headers == front + [last] && [last][1..] == [];
    }
  }

  lemma {:induction false} KeptValues(s: seq<Occurrence>, names: seq<Text>, name: Text)
    ensures ValuesFor(Kept(s, InNames(names)), name) == if name in names then [] else ValuesFor(s, name)
    decreases |s|
  {
    if s == [] {
    } else {
      var front, last := s[..|s| - 1], s[|s| - 1];
      assert s == front + [last] && [last][1..] == [];
      KeptValues(front, names, name);
      ValuesForConcat(front, [last], name);
      ValuesForConcat(Kept(front, InNames(names)), if last.name in names then [] else [last], name);
    }
  }

  /** What a list holds under a name after an addition or a deletion, tags included. */
  predicate Changed(before: seq<Occurrence>, after: seq<Occurrence>, name: Text, added: seq<Occurrence>, deleted: seq<Text>) {
    ValuesFor(after, name) == if name in deleted then [] else ValuesFor(before, name) + ValuesFor(added, name)
  }

  /** Every call changes its own list under its own names, and nothing else. */
  lemma StepEffect(v: Lists, op: Op, name: Text)
    ensures
      var w := Step(v, op);
      && Changed(v.queries, w.queries, name, if op.AddQuery? then [op.o] else [], if op.DeleteQueries? then op.names else [])
      && Changed(v.cookies, w.cookies, name, if op.AddCookie? then [op.o] else [], if op.DeleteCookies? then op.names else [])
      && if op.ResetForm? then w.form == []
         else Changed(v.form, w.form, name, if op.AddField? then [op.o] else [], if op.DeleteFields? then op.names else [])
  {
    match op
    case AddQuery(o) => Added(v.queries, o, name);
    case DeleteQueries(names) => KeptValues(v.queries, names, name);
    case AddCookie(o) => Added(v.cookies, o, name);
    case DeleteCookies(names) => KeptValues(v.cookies, names, name);
    case AddField(o) => Added(v.form, o, name);
    case DeleteFields(names) => KeptValues(v.form, names, name);
    case _ =>
  }

  lemma Added(s: seq<Occurrence>, o: Occurrence, name: Text)
    ensures Changed(s, s + [o], name, [o], [])
  {
    ValuesForConcat(s, [o], name);
  }

  /** Headers are compared by name up to case. */
  lemma StepHeaderEffect(v: Lists, op: Op, name: Text)
    ensures Tagged(Step(v, op).headers, name) ==
            if op.ResetHeaders? then []
            else if op.DeleteHeaders? && Fold(name) in FoldSet(op.names) then []
            else Tagged(v.headers, name) + if op.AddHeader? && EqualFold(op.o.name, name) then [op.o.value] else []
  {
    match op
    case AddHeader(o) =>
      TaggedConcat(v.headers, [o], name);
      assert [o][1..] == [];
    case DeleteHeaders(names) =>
      KeptIsWithout(v.headers, names);
      TaggedWithout(v.headers, FoldSet(names), name);
    case _ =>
  }

  /** Path parameters: the last value set, none after a deletion. */
  lemma StepParamEffect(v: Lists, op: Op, name: Text)
    ensures
      var w := Step(v, op);
      if op.SetParam? && op.name == name then name in w.params && w.params[name] == op.value
      else if op.DeleteParam? && op.name == name then name !in w.params
      else (name in w.params <==> name in v.params) && (name in v.params ==> w.params[name] == v.params[name])
  {
  }

  const ZERO: Occurrence := Named([], Private([]))

  /** A Go map of path parameters: shared by whoever holds the reference. */
  class ParamMap {
    var m: map<Text, Value>

    constructor (m: map<Text, Value>)
      ensures this.m == m
    {
      this.m := m;
    }
  }

  /** The mutable storage behind a builder, a client or a snapshot. */
  class Store {
    const queries: Slice<Occurrence>
    const headers: Slice<Occurrence>
    const cookies: Slice<Occurrence>
    const form: Slice<Occurrence>
    const params: ParamMap

    ghost function Repr(): set<object>
      reads queries, headers, cookies, form
    {
      {queries, headers, cookies, form, params, queries.data, headers.data, cookies.data, form.data}
    }

    /** No list shares its header or its backing array with another. */
    ghost predicate Valid()
      reads queries, headers, cookies, form
    {
      && queries.Valid() && headers.Valid() && cookies.Valid() && form.Valid()
      && queries != headers && queries != cookies && queries != form
      && headers != cookies && headers != form && cookies != form
      && queries.data != headers.data && queries.data != cookies.data && queries.data != form.data
      && headers.data != cookies.data && headers.data != form.data && cookies.data != form.data
    }

    ghost function View(): Lists
      requires Valid()
      reads Repr(), queries, headers, cookies, form
    {
      Lists(queries.Contents(), headers.Contents(), cookies.Contents(), form.Contents(), params.m)
    }

    constructor (queries: Slice<Occurrence>, headers: Slice<Occurrence>, cookies: Slice<Occurrence>,
                 form: Slice<Occurrence>, params: ParamMap)
      ensures this.queries == queries && this.headers == headers && this.cookies == cookies
      ensures this.form == form && this.params == params
    {
      this.queries, this.headers, this.cookies, this.form, this.params := queries, headers, cookies, form, params;
    }

    /** requestMetadata.clone, snapshotRequestTarget and cloneRequestBodyPlan. */
    method Snapshot() returns (s: Store)
      requires Valid()
      ensures s.Valid() && s.View() == View() && fresh(s) && fresh(s.Repr())
    {
      var q, h := ClonePair(queries, headers);
      var c, f := ClonePair(cookies, form);
      var p := new ParamMap(params.m);
      s := new Store(q, h, c, f, p);
    }

    static method ClonePair(a: Slice<Occurrence>, b: Slice<Occurrence>)
      returns (c: Slice<Occurrence>, d: Slice<Occurrence>)
      requires a.Valid() && b.Valid()
      ensures fresh(c) && fresh(c.data) && c.Valid() && c.Contents() == a.Contents()
      ensures fresh(d) && fresh(d.data) && d.Valid() && d.Contents() == b.Contents()
      ensures c != d && c.data != d.data
    {
      c := a.Clone();
      d := b.Clone();
    }

    method Apply(op: Op)
      requires Valid()
      modifies Repr()
      ensures Valid() && View() == Step(old(View()), op)
      ensures fresh(Repr() - old(Repr()))
    {
      if op.SetParam? {
        params.m := params.m[op.name := op.value];
      } else if op.DeleteParam? {
        params.m := params.m - {op.name};
      } else if op.ResetHeaders? {
        headers.Reset();
      } else if op.ResetForm? {
        form.Reset();
      } else if IsDelete(op) {
        Delete(op);
      } else {
        Append(op);
      }
    }

    method Append(op: Op)
      requires Valid() && IsAdd(op)
      modifies Repr()
      ensures Valid() && View() == Step(old(View()), op)
      ensures fresh(Repr() - old(Repr()))
    {
      match op
      case AddQuery(o) => queries.Append(o);
      case AddHeader(o) => headers.Append(o);
      case AddCookie(o) => cookies.Append(o);
      case AddField(o) => form.Append(o);
    }

    method Delete(op: Op)
      requires Valid() && IsDelete(op)
      modifies Repr()
      ensures Valid() && View() == Step(old(View()), op)
      ensures Repr() == old(Repr())
    {
      match op
      case DeleteQueries(names) => queries.Delete(InNames(names));
      case DeleteHeaders(names) => headers.Delete(InNamesFold(names));
      case DeleteCookies(names) => cookies.Delete(InNames(names));
      case DeleteFields(names) => form.DeleteAndClear(InNames(names), ZERO);
    }
  }

  /** One call on a store beside another one that shares nothing with it. */
  method ApplyBeside(b: Store, s: Store, op: Op)
    requires b.Valid() && s.Valid() && s.Repr() !! b.Repr()
    modifies b.Repr()
    ensures b.Valid() && b.View() == Step(old(b.View()), op) && fresh(b.Repr() - old(b.Repr()))
    ensures s.Valid() && s.View() == old(s.View()) && s.Repr() !! b.Repr()
  {
    b.Apply(op);
  }

  /** Any calls on a store leave a separate one as it was. */
  method RunBeside(b: Store, s: Store, ops: seq<Op>)
    requires b.Valid() && s.Valid() && s.Repr() !! b.Repr()
    modifies b.Repr()
    ensures b.Valid() && b.View() == Run(old(b.View()), ops) && fresh(b.Repr() - old(b.Repr()))
    ensures s.Valid() && s.View() == old(s.View())
    decreases |ops|
  {
    if ops != [] {
      ApplyBeside(b, s, ops[0]);
      RunBeside(b, s, ops[1..]);
    }
  }

  /** Any calls on the builder after a snapshot: the builder moves on, and the
      snapshot still shows the state it was taken in. */
  method SnapshotThen(b: Store, ops: seq<Op>) returns (s: Store)
    requires b.Valid()
    modifies b.Repr()
    ensures s.Valid() && s.View() == old(b.View())
    ensures b.Valid() && b.View() == Run(old(b.View()), ops)
  {
    s := b.Snapshot();
    RunBeside(b, s, ops);
  }
}
