/** Occurrence lists as Go slices: a backing array that append may fill and that
    deletion compacts in place (request_metadata.go, body.go). */
module Slices {
  /** What a deletion leaves: the elements that are not dropped, in order. */
  function Kept<T>(s: seq<T>, drop: T -> bool): seq<T> {
    if s == [] then []
    else Kept(s[..|s| - 1], drop) + if drop(s[|s| - 1]) then [] else [s[|s| - 1]]
  }

  lemma {:induction false} KeptShorter<T>(s: seq<T>, drop: T -> bool)
    ensures |Kept(s, drop)| <= |s|
  {
    if s == [] {
    } else {
      KeptShorter(s[..|s| - 1], drop);
    }
  }

  class Slice<T(0)> {
    var data: array<T>
    var len: nat

    ghost predicate Valid()
      reads this
    {
      len <= data.Length
    }

    ghost function Contents(): seq<T>
      requires Valid()
      reads this, data
    {
      data[..len]
    }

    constructor ()
      ensures Valid() && Contents() == [] && fresh(data)
    {
      data := new T[0];
      len := 0;
    }

    /** append: in place while there is room, otherwise into a new array. */
    method Append(x: T)
      requires Valid()
      modifies this, data
      ensures Valid() && Contents() == old(Contents()) + [x]
      ensures data == old(data) || fresh(data)
    {
      if len == data.Length {
        var grown := new T[2 * len + 1];
        for i := 0 to len
          invariant data == old(data) && len == old(len) && data[..] == old(data[..])
          invariant fresh(grown) && grown.Length == 2 * len + 1
          invariant grown[..i] == data[..i]
        {
          grown[i] := data[i];
        }
        data := grown;
      }
      data[len] := x;
      len := len + 1;
    }

    /** `kept := s[:0]` followed by appends of the survivors: the array that is
        being read is overwritten from the front. */
    method Delete(drop: T -> bool)
      requires Valid()
      modifies this, data
      ensures Valid() && Contents() == Kept(old(Contents()), drop)
      ensures data == old(data)
    {
      var k := 0;
      for i := 0 to len
        invariant k <= i && len == old(len) && data == old(data)
        invariant data[..k] == Kept(old(data[..])[..i], drop)
        invariant forall j :: i <= j < data.Length ==> data[j] == old(data[j])
      {
        ghost var was := old(data[..]);
        assert was[..i + 1][..i] == was[..i] && was[..i + 1][i] == data[i];
        if !drop(data[i]) {
          data[k] := data[i];
          k := k + 1;
          assert data[..k] == data[..k - 1] + [was[i]];
        }
      }
      len := k;
      assert old(data[..])[..old(len)] == old(Contents());
    }

    /** slices.DeleteFunc: the vacated tail is cleared as well. */
    method DeleteAndClear(drop: T -> bool, zero: T)
      requires Valid()
      modifies this, data
      ensures Valid() && Contents() == Kept(old(Contents()), drop)
      ensures data == old(data)
      ensures forall j :: len <= j < old(len) ==> data[j] == zero
    {
      var before := len;
      Delete(drop);
      KeptShorter(old(Contents()), drop);
      for j := len to before
        invariant data == old(data) && len <= data.Length
        invariant data[..len] == Kept(old(Contents()), drop)
        invariant forall i :: len <= i < j ==> data[i] == zero
      {
        data[j] := zero;
      }
    }

    /** Assigning a nil slice: the old array is left as it is. */
    method Reset()
      modifies this
      ensures Valid() && Contents() == [] && fresh(data)
    {
      data := new T[0];
      len := 0;
    }

    /** append([]T(nil), s...) and slices.Clone. */
    method Clone() returns (c: Slice<T>)
      requires Valid()
      ensures fresh(c) && fresh(c.data) && c.Valid() && c.Contents() == Contents()
    {
      c := new Slice();
      var copy := new T[len];
      for i := 0 to len
        invariant copy[..i] == data[..i]
      {
        copy[i] := data[i];
      }
      c.data, c.len := copy, len;
    }
  }
}
