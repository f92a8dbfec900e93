// Types shared by the models of the charging drivers.
module Common {

  datatype Option<+T> = None | Some(value: T)

  // A C `int` and a C `u32` of the kernel ABI.
  type int32 = x: int | -0x8000_0000 <= x <= 0x7FFF_FFFF
  type uint32 = x: int | 0 <= x <= 0xFFFF_FFFF

  const INT_MAX: int32 := 0x7FFF_FFFF
  const INT_MIN: int32 := -0x8000_0000

  // Linux error numbers.
  const EINVAL: int32 := 22
  const ENODEV: int32 := 19

  // What a C assignment of a `u32` to an `int` stores.
  function ToInt(u: uint32): int32 {
    if u <= INT_MAX then u else u - 0x1_0000_0000
  }

  function BoolToInt(b: bool): int32 {
    if b then 1 else 0
  }

  function Abs(x: int): nat {
    if x < 0 then -x else x
  }

  // The least index from `i` on at which `x` occurs in `s`, or |s|.
  function IndexFrom<T(==)>(s: seq<T>, x: T, i: nat): (r: nat)
    requires i <= |s|
    ensures i <= r <= |s|
    ensures forall j :: i <= j < r ==> s[j] != x
    ensures r < |s| ==> s[r] == x
    decreases |s| - i
  {
    if i == |s| || s[i] == x then i else IndexFrom(s, x, i + 1)
  }

  function FirstIndex<T(==)>(s: seq<T>, x: T): (r: nat)
    ensures r <= |s|
    ensures forall j :: 0 <= j < r ==> s[j] != x
    ensures r < |s| ==> s[r] == x
  {
    IndexFrom(s, x, 0)
  }

  lemma FirstIndexIs<T>(s: seq<T>, x: T, k: nat)
    requires k <= |s| && (forall j :: 0 <= j < k ==> s[j] != x) && (k < |s| ==> s[k] == x)
    ensures FirstIndex(s, x) == k
  {
  }
}
