/** The length of an encoded form, and the overflow-safe lower bound that Prepare
    compares with its budget before encoding (request_preparation.go, body.go). */
module FormBudget {
  import opened Base
  import opened Headers
  import opened Sorting
  import opened Escaping
  import opened QueryPlan

  /** The bytes delivery sends for a form: every occurrence added to url.Values
      and encoded. */
  function FormBytes(form: seq<Occurrence>): Text {
    Encode(Group(map[], RawPairs(form)))
  }

  /** Every field with its content, whatever its tag. */
  function Fields(form: seq<Occurrence>): seq<Pair> {
    seq(|form|, i requires 0 <= i < |form| => Named(form[i].name, form[i].value.raw))
  }

  lemma {:induction false} FieldsAreRaw(form: seq<Occurrence>)
    ensures RawPairs(form) == Fields(form)
  {
    if form == [] {
    } else {
      FieldsAreRaw(form[1..]);
      assert Fields(form) == [Named(form[0].name, form[0].value.raw)] + Fields(form[1..]);
    }
  }

  // --------------------------------------- encoding is a sorted, joined list

  lemma {:induction false} PairsOfSorted(name: Text, values: seq<Text>, rest: seq<Pair>)
    requires SortedByName(rest) && (rest != [] ==> Leq(name, rest[0].name))
    ensures SortedByName(PairsOf(name, values) + rest)
    ensures values != [] ==> PairsOf(name, values)[0].name == name
    decreases |values|
  {
    if values == [] {
      assert PairsOf(name, values) + rest == rest;
    } else {
      PairsOfSorted(name, values[1..], rest);
      LeqReflexive(name);
      var tail := PairsOf(name, values[1..]) + rest;
      assert PairsOf(name, values) + rest == [Named(name, values[0])] + tail;
      assert ([Named(name, values[0])] + tail)[1..] == tail;
    }
  }

  lemma {:induction false} FlattenSorted(m: Values, keys: seq<Text>)
    requires SortedNames(keys)
    ensures SortedByName(Flatten(m, keys))
    ensures Flatten(m, keys) != [] ==> Flatten(m, keys)[0].name in keys
  {
    if keys == [] {
    } else {
      var rest := Flatten(m, keys[1..]);
      FlattenSorted(m, keys[1..]);
      if rest != [] {
        var i :| 0 <= i < |keys[1..]| && keys[1..][i] == rest[0].name;
        assert Leq(keys[0], keys[i + 1]);
      }
      PairsOfSorted(keys[0], Get(m, keys[0]), rest);
    }
  }

  /** Encoding the grouped values is joining the pairs, stably sorted by name. */
  lemma EncodeIsSortedJoin(ps: seq<Pair>)
    ensures Encode(Group(map[], ps)) == JoinPairs(Sort(ps))
  {
    var m := Group(map[], ps);
    var flat := Flatten(m, SortedKeys(m.Keys));
    SortedKeysMeaning(m.Keys);
    FlattenSorted(m, SortedKeys(m.Keys));
    SortMeaning(ps, []);
    forall name
      ensures ValuesFor(flat, name) == ValuesFor(Sort(ps), name)
    {
      EncodedValues(m, name);
      GroupMeaning(map[], ps, name);
      SortMeaning(ps, name);
    }
    SortedDetermined(flat, Sort(ps));
  }

  // ---------------------------------------------------------------- lengths

  function TotalLength(ps: seq<Pair>): nat {
    if ps == [] then 0 else |EncodePair(ps[0])| + TotalLength(ps[1..])
  }

  lemma {:induction false} JoinLength(ps: seq<Pair>)
    ensures |JoinPairs(ps)| == TotalLength(ps) + if ps == [] then 0 else |ps| - 1
  {
    if |ps| <= 1 {
    } else {
      JoinLength(ps[1..]);
    }
  }

  lemma {:induction false} InsertLength(p: Pair, s: seq<Pair>)
    ensures TotalLength(Insert(p, s)) == |EncodePair(p)| + TotalLength(s) && |Insert(p, s)| == |s| + 1
  {
    if s == [] || Leq(p.name, s[0].name) {
      assert ([p] + s)[1..] == s;
    } else {
      InsertLength(p, s[1..]);
      assert ([s[0]] + Insert(p, s[1..]))[1..] == Insert(p, s[1..]);
    }
  }

  lemma {:induction false} SortLength(s: seq<Pair>)
    ensures TotalLength(Sort(s)) == TotalLength(s) && |Sort(s)| == |s|
  {
    if s == [] {
    } else {
      SortLength(s[1..]);
      InsertLength(s[0], Sort(s[1..]));
    }
  }

  lemma {:induction false} EscapeGrows(s: Text)
    ensures |Escape(s)| >= |s|
  {
    if s == [] {
    } else {
      EscapeGrows(s[1..]);
    }
  }

  /** The raw bytes of one occurrence with its equals sign. */
  function RawLength(o: Occurrence): nat {
    |o.name| + 1 + |o.value.raw|
  }

  /** The running total after the first n occurrences: raw lengths and separators. */
  function LowerBound(form: seq<Occurrence>, n: nat): nat
    requires n <= |form|
  {
    if n == 0 then 0 else LowerBound(form, n - 1) + (if n > 1 then 1 else 0) + RawLength(form[n - 1])
  }

  lemma {:induction false} LowerBoundSplit(form: seq<Occurrence>)
    requires form != []
    ensures LowerBound(form, |form|) <= TotalLength(RawPairs(form)) + |form| - 1
    ensures |RawPairs(form)| == |form|
    decreases |form|
  {
    var front, last := form[..|form| - 1], form[|form| - 1];
    assert form == front + [last];
    RawPairsSnoc(front, last);
    TotalSnoc(RawPairs(front), Named(last.name, last.value.raw));
    EscapeGrows(last.name);
    EscapeGrows(last.value.raw);
    LowerBoundPrefix(form, |form| - 1);
    if front == [] {
    } else {
      LowerBoundSplit(front);
    }
  }

  lemma {:induction false} LowerBoundPrefix(form: seq<Occurrence>, n: nat)
    requires n < |form|
    ensures LowerBound(form, n) == LowerBound(form[..|form| - 1], n)
  {
    if n == 0 {
    } else {
      LowerBoundPrefix(form, n - 1);
    }
  }

  lemma {:induction false} RawPairsSnoc(front: seq<Occurrence>, last: Occurrence)
    ensures RawPairs(front + [last]) == RawPairs(front) + [Named(last.name, last.value.raw)]
  {
    if front == [] {
      assert front + [last] == [last] && [last][1..] == [];
    } else {
      assert (front + [last])[1..] == front[1..] + [last];
      RawPairsSnoc(front[1..], last);
    }
  }

  lemma {:induction false} TotalSnoc(front: seq<Pair>, last: Pair)
    ensures TotalLength(front + [last]) == TotalLength(front) + |EncodePair(last)|
  {
    if front == [] {
      assert front + [last] == [last] && [last][1..] == [];
    } else {
      assert (front + [last])[1..] == front[1..] + [last];
      TotalSnoc(front[1..], last);
    }
  }

  lemma {:induction false} LowerBoundMonotone(form: seq<Occurrence>, i: nat, j: nat)
    requires i <= j <= |form|
    ensures LowerBound(form, i) <= LowerBound(form, j)
  {
    if i >= j {
    } else {
      LowerBoundMonotone(form, i, j - 1);
    }
  }

  /** The running total never exceeds what the encoding will need. */
  lemma LowerBoundHolds(form: seq<Occurrence>, n: nat)
    requires n <= |form|
    ensures LowerBound(form, n) <= |FormBytes(form)|
  {
    if n > 0 {
      var ps := RawPairs(form);
      LowerBoundMonotone(form, n, |form|);
      LowerBoundSplit(form);
      EncodeIsSortedJoin(ps);
      JoinLength(Sort(ps));
      SortLength(ps);
    }
  }

  // ------------------------------------------------- the overflow-safe check

  /** addPreparedFormLength in 64-bit arithmetic: exact, and never overflowing. */
  method AddLength(total: int64, part: int64, budget: int64) returns (sum: int64, exceeds: bool)
    requires 0 <= total
    ensures exceeds <==> part < 0 || total as int + part as int > budget as int
    ensures !exceeds ==> sum as int == total as int + part as int
    ensures total <= sum
  {
    if part < 0 || total > 0x7fff_ffff_ffff_ffff - part {
      return total, true;
    }
    sum := total + part;
    exceeds := sum > budget;
  }

  /** One occurrence of the form loop: separator, name, equals sign, value. */
  method AddOccurrence(total: int64, first: bool, o: Occurrence, budget: int64) returns (sum: int64, exceeds: bool)
    requires 0 <= total <= budget
    requires |o.name| <= MAX_INT64 && |o.value.raw| <= MAX_INT64
    ensures exceeds <==> total as int + (if first then 0 else 1) + RawLength(o) > budget as int
    ensures !exceeds ==> 0 <= sum <= budget && sum as int == total as int + (if first then 0 else 1) + RawLength(o)
  {
    sum, exceeds := total, false;
    if !first {
      sum, exceeds := AddLength(sum, 1, budget);
    }
    if !exceeds {
      sum, exceeds := AddLength(sum, |o.name| as int64, budget);
    }
    if !exceeds {
      sum, exceeds := AddLength(sum, 1, budget);
    }
    if !exceeds {
      sum, exceeds := AddLength(sum, |o.value.raw| as int64, budget);
    }
  }
}
