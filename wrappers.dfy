/** Optional values: a field that may be missing (a blank CSV cell, a JSON null)
    or an operation that may fail (a remote lookup that raised). */
module Wrappers {

  datatype Option<+T> = None | Some(value: T)
}
