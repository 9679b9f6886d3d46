/** Types that every component of the gateway model shares. */
module Wrappers {

  datatype Option<+T> = None | Some(value: T)

  const TWO_63: nat := 0x8000_0000_0000_0000
  const TWO_64: nat := 0x1_0000_0000_0000_0000

  /** Go's `uint64`. */
  type UInt64 = n: nat | n < TWO_64

  /** Reading a Go map: an absent key yields the zero value of the element type. */
  function Lookup<K, V>(m: map<K, V>, key: K, zero: V): V {
    if key in m then m[key] else zero
  }

  /** Steps one after another. */
  datatype Run<Step> = Begin | Then(before: Run<Step>, step: Step)
}
