/** Optional values, used where the bot either produces something or nothing. */
module Wrappers {

  datatype Option<+T> = None | Some(value: T)
}
