/** The bound that the archive check and `hash_tree` share. */
module Limits {
  const MAX_FILES := 2000
}
