/** Result types shared by the whole model, and the errors the program raises. */
module Prelude {
  datatype Option<+T> = None | Some(value: T)

  datatype Result<+T, +E> = Ok(value: T) | Err(error: E)

  /** One constructor per kind of exception. */
  datatype Error =
    | FileExists
    | NotADirectory
    | IsADirectory
    | NotFound
    | UnknownSession
    | SessionExists
    | InvalidValue
    | UnknownApproval
    | AlreadyResolved
    | PermissionDenied
    | KeyReused
    | AuditTampered(index: nat)
    | Malformed
    | EvidenceMissing
    | UnresolvedRef

  /** Validated text: stripped and non-blank. */
  type Text = s: string | s != "" witness "x"
}
