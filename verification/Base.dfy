/** Vocabulary shared by every component of the model. */
module Base {

  /** A Go string is a sequence of bytes; a byte is a character below 256, so
      that string literals can be used directly. */
  type Byte = c: char | c as int < 256 witness 'a'

  type Text = seq<Byte>

  datatype Option<+T> = None | Some(value: T)

  datatype Result<+T, +E> = Success(value: T) | Failure(error: E)

  const MAX_INT64: int := 0x7fff_ffff_ffff_ffff

  /** Go's `int` and `int64` on a 64-bit platform. */
  newtype int64 = x: int | -0x8000_0000_0000_0000 <= x <= 0x7fff_ffff_ffff_ffff

  lemma ConcatAssociates<T>(a: seq<T>, b: seq<T>, c: seq<T>)
    ensures (a + b) + c == a + (b + c)
  {
  }

  lemma SplitAt<T>(s: seq<T>, i: nat)
    requires i < |s|
    ensures s == (s[..i] + [s[i]]) + s[i + 1..]
  {
  }

  function Min(a: int, b: int): int {
    if a <= b then a else b
  }

  /** Values appended on one of two sides. */
  lemma OneSide<T>(before: seq<T>, added: seq<T>, first: bool)
    ensures (before + if first then added else []) + (if first then [] else added) == before + added
  {
  }

  /** strings.IndexByte and bytes.IndexByte, with the length for "not found". */
  function IndexOf(s: Text, c: Byte): (i: nat)
    ensures i <= |s| && (i < |s| ==> s[i] == c)
    ensures forall j :: 0 <= j < i ==> s[j] != c
  {
    if s == [] || s[0] == c then 0 else 1 + IndexOf(s[1..], c)
  }
}
