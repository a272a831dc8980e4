/** Option and Result wrappers, and the errors the game-object library throws. */
module Wrappers {

  datatype Option<+T> = None | Some(value: T)

  /**
   * The synchronous failures of the library: the errors it throws (one `MissingProperty`
   * for the two identical throws of Dependency.check) and the TypeError of setChildren on
   * an empty list (`NoFirstChild`). The "empty array" throw of setChildren follows that
   * read and is never reached, so it has no constructor.
   */
  datatype Error =
    | NoFirstChild                            // setChildren([]): reading `.name` of `children[0]`
    | UnknownCollection(key: string)          // setChildren: collection not declared on the owner
    | ChildNotFound(id: string, key: string)  // removeChild: child not in its collection
    | NotNumeric(key: string)                 // applyModifiers: raw value absent or not a number
    | MissingProperty(key: string)            // Dependency.check: `key` undefined on the target

  /** Either a value or the error that was thrown instead. */
  datatype Result<+T> = Ok(value: T) | Err(error: Error)
}
