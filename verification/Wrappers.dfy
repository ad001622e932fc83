/**
 Results, options, schema versions and the machine integer bounds shared by every component.

 Quantities are unbounded naturals; where the program uses `u32`, `u64` or `usize`
 (a 64-bit host is modelled) the bound is written out with the constants below.
 */
module Wrappers {
  datatype Option<+T> = None | Some(value: T)

  datatype Result<+T, +E> = Ok(value: T) | Err(error: E)

  /** Major versions are incompatible, minor versions additive. */
  datatype SchemaVersion = SchemaVersion(major: nat, minor: nat)

  const U32_MAX: nat := 0xFFFF_FFFF
  const U64_MAX: nat := 0xFFFF_FFFF_FFFF_FFFF
}
