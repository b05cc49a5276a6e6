/** Small value wrappers shared by the whole model. */
module Wrappers {

  /** An optional value: `None` stands for JavaScript's `null` / `undefined`. */
  datatype Option<+T> = None | Some(value: T)

  /** One field of a partial update object (TypeScript `Partial<T>`): either the
      field is absent from the update (`Keep`) or present with a value (`Put`),
      which for a nullable field may itself be `None`, i.e. an explicit `null`. */
  datatype Update<+T> = Keep | Put(value: T) {
    /** The value of the field after `{ ...current, ...update }`. */
    function Over(current: T): T {
      match this
      case Put(v) => v
      case Keep => current
    }
  }
}
