/** The absent-or-present value used for a parsed form field (absent when
    the field's text does not parse as an integer) and for the component's
    nullable state. */
module Wrappers {
  datatype Option<+T> = None | Some(value: T)
}
