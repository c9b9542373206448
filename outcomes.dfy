/** Result and error values shared by the key store model. */
module Outcomes {

  datatype Option<T> = None | Some(value: T)

  /** The errors the key store surfaces to its caller. */
  datatype StoreError =
    | KeyNotFound                   // "Key not found": get on an absent slot, or on one holding ""
    | ClearTimeout                  // "Timeout while clearing keys": the timer fired first
    | ScanFailure(message: string)  // the scan stream's own error

  datatype Result<T> = Ok(value: T) | Err(error: StoreError)
}
