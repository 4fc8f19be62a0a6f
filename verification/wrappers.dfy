/** Optional values, used for the reply reference a message may carry and for
    the first-match searches over the bot's tables. */
module Wrappers {

  datatype Option<+T> = None | Some(value: T)

}
