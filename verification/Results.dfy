/** Result types shared by every layer. */
module Results {
  datatype Option<+T> = None | Some(value: T)

  /** The gRPC status codes that the services return. */
  datatype Status = OK | NOT_FOUND | ALREADY_EXISTS
}
