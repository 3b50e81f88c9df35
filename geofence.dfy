/**
 * The spatial indexer. It is a foreign library (H3) behind a total function: the cell id
 * is the hexadecimal form of the H3 index, or the sentinel "default" when indexing fails.
 * Neither form contains ':', which the store's key format relies on.
 */
module Geofence {
  import opened JavaText

  /** A geofence cell id: never contains the key separator ':'. */
  type CellId = s: string | ':' !in s

  const DEFAULT_CELL: CellId := "default"

  /** latitude, longitude, resolution to cell id; deterministic, as every Dafny function is. */
  type CellIndex = (real, real, Int32) -> CellId
}
