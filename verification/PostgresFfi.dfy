/** Sizes that Postgres is built with. */
module PostgresFfi {
  /** Bytes in a block. */
  const BLCKSZ: nat := 8192

  /** Blocks in a segment file of a relation. */
  const RELSEG_SIZE: nat := 131072
}
