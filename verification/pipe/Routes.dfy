/** Addresses, routes and messages. */
module Routes {

  type Address = nat

  type Route = seq<Address>

  /** Packing a message into a pipe message and unpacking it again gives the same message, so a pipe
      message simply holds it. */
  datatype PipeMessage = PipeMessage(index: nat, inner: Message)

  datatype Command = InitSender | InitHandshake | Handshake(routeToSender: Route) | Other

  /** The announcement that opens a channel: the address its far worker is to have, and the addresses of
      the pipes at the near end. */
  datatype Creation = Creation(channel: Address, tx: Address, txInt: Address, rx: Address, rxInt: Address)

  datatype Body = Data(payload: int) | Packed(pipe: PipeMessage) | Internal(cmd: Command) | Create(creation: Creation)

  datatype Message = Message(onward: Route, ret: Route, body: Body)

  /** Remove the first address, if there is one. */
  function PopFront(r: Route): Route {
    if r == [] then [] else r[1..]
  }

  function PopBack(r: Route): Route {
    if r == [] then [] else r[..|r| - 1]
  }
}
