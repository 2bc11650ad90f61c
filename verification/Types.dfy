/** Constants shared by the models, for the build with two-level tables. */
module Types {

  /** The 32-bit value that stands for "none" in mapping tables and OOB words. */
  const UINT_MAX: nat := 0xFFFF_FFFF

  /** Grains of 64 bytes in a page of 4 KB. */
  const GRAIN_PER_PAGE: nat := 64

  /** Grains of the root of a two-level table, mappings per leaf, leaves per table, and
      mappings per table. */
  const ROOT_G: nat := 4
  const IN_LEAF: nat := 8
  const IN_ROOT: nat := 60
  const EPP: nat := 480
}
