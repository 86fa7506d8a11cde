/** Optional values, results and the exceptions the modelled Python code can raise. */
module Base {

  datatype Option<+T> = None | Some(value: T)

  /** A Python exception surfacing from the account or modem code. */
  datatype Fault =
    | Timeout            // gsmmodem's TimeoutException: no answer to a request or reply
    | IndexError         // indexing a list past its end
    | ValueError(reason: string)
    | AttributeError     // an attribute looked up on an object that lacks it
    | TypeError          // subscripting an object that does not support it
    | KeyError(key: string)
    | Unexpected         // an exception from connect() other than the two swallowed ones

  datatype Result<+T> = Ok(value: T) | Err(fault: Fault)
}
