/** Optional values, and the outcomes of calls into services the model
    cannot see: such a call either returns a value or raises an exception
    carrying a message. */
module Wrappers {

  datatype Option<+T> = None | Some(value: T)

  datatype Reply<+T> = Returned(value: T) | Raised(message: string)

}
