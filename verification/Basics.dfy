/** Types that all components share. */
module Basics {

  newtype byte = x: int | 0 <= x < 256

  /** A Go string: a sequence of bytes. */
  type Str = seq<byte>

  datatype Option<+T> = None | Some(value: T)

  function Bytes(s: string): Str {
    seq(|s|, i requires 0 <= i < |s| => (s[i] as int % 256) as byte)
  }

  function Elems<T(==)>(s: seq<T>): set<T> {
    set t | t in s
  }

  predicate NoDup<T(==)>(s: seq<T>) {
    forall i, j :: 0 <= i < j < |s| ==> s[i] != s[j]
  }

  lemma SubsetSize<T>(a: set<T>, b: set<T>)
    requires a <= b
    ensures |a| <= |b|
  {
    assert b == a + (b - a);
  }

  lemma Multiply(a: int, b: int, c: nat)
    requires a <= b
    ensures a * c <= b * c
  {}
}
