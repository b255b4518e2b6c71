/** Value types shared by the broker, the client and the connection handlers. */
module Types {

  /** One octet of a websocket payload. */
  newtype byte = b: int | 0 <= b < 256

  /** Websocket message type of a text (UTF-8) frame, as gorilla/websocket numbers it. */
  const TextMessage := 1

  /** A message payload (Go `[]byte`). */
  type Bytes = seq<byte>

  /** Identity of a request context; whether it is still live is decided by an oracle. */
  datatype Ctx = Ctx(id: nat)

  /** Identity of a websocket transport handle; outcomes of writes on it are decided by oracles. */
  datatype WsConn = WsConn(id: nat)

  datatype Option<T> = None | Some(value: T)

  datatype Result<T, E> = Success(value: T) | Failure(error: E)
}
