/** Optional values, for what the player may hold as `nullptr` (a format
    reader that may not exist, a reader source that may not be installed). */
module Wrappers {

  datatype Option<+T> = None | Some(value: T)
}
