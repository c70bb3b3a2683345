/**
 * Which program the handler runs: the source as written, or the source with
 * the corrections of its three defects (every member chosen in the kick
 * select is kicked; the state comment is escaped and read from the last
 * marker; a refused lock hands the press over to the deferred path).
 */
module Variants {
  datatype Variant = AsWritten | Corrected
}
