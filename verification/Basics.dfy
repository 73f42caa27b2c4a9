/** What the other modules share: optional values, bytes and header fields. */
module Basics {

  datatype Option<+T> = None | Some(value: T)

  type Byte = bv8

  /** Field names as net/http stores them, each with its lines in order of arrival. */
  type Header = map<string, seq<string>>
}
