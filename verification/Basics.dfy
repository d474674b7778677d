/** What the components share. */
module Basics {
  type Byte = x: int | 0 <= x < 0x100

  datatype Option<+T> = None | Some(value: T)

  lemma Associate<T>(a: seq<T>, b: seq<T>, c: seq<T>)
    ensures a + (b + c) == a + b + c
  {
  }

  /** The item before the `k`-th and the one after it, or `none`. */
  function Preceding<T>(list: seq<T>, k: nat, none: T): T
    requires k <= |list|
  {
    if k == 0 then none else list[k - 1]
  }

  function Following<T>(list: seq<T>, k: nat, none: T): T
  {
    if k + 1 < |list| then list[k + 1] else none
  }

  /** A sequence with one item left out. */
  function Without<T>(s: seq<T>, k: nat): (r: seq<T>)
    requires k < |s|
    ensures |r| == |s| - 1 && forall j | 0 <= j < |r| :: r[j] == s[if j < k then j else j + 1]
  {
    s[..k] + s[k + 1..]
  }

  lemma WithoutKeepsOthers<T>(s: seq<T>, k: nat)
    requires k < |s|
    ensures forall x | x in s && x != s[k] :: x in Without(s, k)
  {
    forall x | x in s && x != s[k]
      ensures x in Without(s, k)
    {
      var i :| 0 <= i < |s| && s[i] == x;
      assert Without(s, k)[if i < k then i else i - 1] == x;
    }
  }
}
