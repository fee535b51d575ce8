/** Shared building blocks: optional values, results, 32-bit unsigned
    arithmetic with the wrap-around of a release build, and the
    first-match search that Rust's `position`/`find` perform. */
module Base {

  /** Rust's `Option`. */
  datatype Option<+T> = None | Some(value: T) {

    /** Rust's `unwrap_or`/`map_or` with a fallback value. */
    function GetOr(default: T): T {
      match this
      case Some(v) => v
      case None => default
    }
  }

  /** Rust's `Result`: an `Err` means the operation returned early and
      nothing was written back. */
  datatype Result<+T, +E> = Ok(value: T) | Err(error: E)

  const TWO_TO_THE_32: int := 0x1_0000_0000

  /** The values of Rust's `u32`. */
  type U32 = x: int | 0 <= x < TWO_TO_THE_32

  /** Reduction modulo 2^32: what a release build keeps of an overflowing
      `u32` result. */
  function Wrap(x: int): (r: U32)
    ensures 0 <= x < TWO_TO_THE_32 ==> r == x
    ensures (r - x) % TWO_TO_THE_32 == 0
  {
    x % TWO_TO_THE_32
  }

  /** `a + b` on `u32`. */
  function AddWrap(a: U32, b: U32): (r: U32)
    ensures a + b < TWO_TO_THE_32 ==> r == a + b
    ensures a + b >= TWO_TO_THE_32 ==> r == a + b - TWO_TO_THE_32
  {
    Wrap(a + b)
  }

  /** `a * b` on `u32`. */
  function MulWrap(a: U32, b: U32): U32 {
    Wrap(a * b)
  }

  /** Index of the first element satisfying `matches`, or `|s|` when there
      is none (Rust's `iter().position(..)`, with `None` as `|s|`). */
  function Position<T>(s: seq<T>, matches: T -> bool): (i: nat)
    ensures i <= |s|
    ensures i < |s| ==> matches(s[i])
    ensures forall j :: 0 <= j < i ==> !matches(s[j])
    ensures i == |s| <==> forall j :: 0 <= j < |s| ==> !matches(s[j])
    decreases |s|
  {
    if |s| == 0 then 0
    else if matches(s[0]) then 0
    else 1 + Position(s[1..], matches)
  }

  /** Removes the element at index `i`, keeping the others in order
      (Rust's `Vec::remove`). */
  function RemoveAt<T>(s: seq<T>, i: nat): (r: seq<T>)
    requires i < |s|
    ensures |r| == |s| - 1
    ensures forall j :: 0 <= j < i ==> r[j] == s[j]
    ensures forall j :: i <= j < |r| ==> r[j] == s[j + 1]
  {
    s[..i] + s[i + 1..]
  }

  /** The elements of `s` that `keep` accepts, in their order (Rust's
      `iter().filter(..)`). */
  function Filter<T(!new)>(s: seq<T>, keep: T -> bool): (r: seq<T>)
    ensures |r| <= |s|
    decreases |s|
  {
    if |s| == 0 then []
    else
      var init := Filter(s[..|s| - 1], keep);
      if keep(s[|s| - 1]) then init + [s[|s| - 1]] else init
  }

  /** `Filter` keeps exactly the accepted elements. */
  lemma {:induction false} FilterMembers<T(!new)>(s: seq<T>, keep: T -> bool)
    ensures forall x :: x in Filter(s, keep) <==> x in s && keep(x)
    decreases |s|
  {
    if |s| > 0 {
      FilterMembers(s[..|s| - 1], keep);
      assert s == s[..|s| - 1] + [s[|s| - 1]];
    }
  }

  /** Extending the prefix by one element extends the filtered prefix by
      that element when it is accepted. */
  lemma FilterPrefix<T(!new)>(s: seq<T>, i: nat, keep: T -> bool)
    requires i < |s|
    ensures Filter(s[..i + 1], keep) == Filter(s[..i], keep) + (if keep(s[i]) then [s[i]] else [])
  {
    assert s[..i + 1][..i] == s[..i];
  }
}
