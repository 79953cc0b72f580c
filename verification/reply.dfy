/** The `{"success": …, "message": …, "data": …}` dictionaries the
    auth-service controllers return. */
module Replies {
  datatype Reply<+T> = Ok(message: string, data: T) | Err(message: string)
}
