/** Optional values: a JavaScript `undefined`, a PHP `null`, or a storage key with no entry. */
module Wrappers {

  datatype Option<+T> = None | Some(value: T)

}
