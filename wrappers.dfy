/** Small value types shared by the components. */
module Wrappers {

  /** A value that may be absent: the source's `null` (an FAQ item id that
      is not open) or a handler that emits nothing. */
  datatype Option<+T> = None | Some(value: T)

  /** A toast notification handed to the host's notifier. The notifier is
      outside the model; a handler that notifies returns one of these. */
  datatype Toast = Toast(title: string, description: string)
}
