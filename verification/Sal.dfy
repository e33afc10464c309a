/** The vocabulary shared by the socket classes and the network stack below them:
    error codes, events, and handlers seen as short runs of machine words. */
module Sal {
  datatype Option<+T> = None | Some(value: T)

  /** A stored handler is a multi-word value; the word count is fixed by the platform. */
  type Word = nat
  type Handler = seq<Word>

  type SockId = nat
  type Impl = nat

  datatype Error =
    | NoError
    | NullPtr
    | BadStack
    | Closed
    | Unimplemented
    | StackError(code: nat)

  datatype Event =
    | RxError(e: Error)
    | TxError(e: Error)
    | GeneralError(e: Error)
    | RxDone
    | TxDone(sentBytes: nat)
    | DnsAnswer(addr: nat, domain: string)
    | Connected
    | Disconnected
    | Incoming(newImpl: Impl)
    | NoEvent
    | UnknownEvent

  /** The concrete socket classes: UDPSocket, TCPStream and TCPListener. */
  datatype Kind = Udp | Stream | Listener
}
