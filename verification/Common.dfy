/** Shared result types and identifiers. */
module Common {
  /** Row identifiers, references and hashes are opaque strings. */
  type Id = string

  datatype Option<+T> = None | Some(value: T)

  /** How a service call ends: it returns, or it throws with a message. */
  datatype Reply = Returned | Thrown(message: string)
}
