/** Small shared datatypes: optional values, wallet addresses. */
module Wrappers {
  datatype Option<+T> = None | Some(value: T)

  /** A wallet address: the lower-case hexadecimal string the service uses as a map key. */
  datatype Address = Address(hex: string)

  function Max(a: int, b: int): int { if a < b then b else a }

  function Min(a: int, b: int): int { if a < b then a else b }
}
