/** Words shared by the services. */
module Vocabulary {

  datatype EventType = SessionRevoked | PasswordChanged | AccessPolicyChanged

  datatype Option<+T> = None | Some(value: T)

  function Min(a: int, b: int): int { if a <= b then a else b }

  function Max(a: int, b: int): int { if a <= b then b else a }
}
