/** The two state machines of a connection: the WebSocket layer's and the driver's. */
module States {

  datatype WsState = Connecting | Open | Closing | Closed {
    function Rank(): nat {
      match this
      case Connecting => 0
      case Open => 1
      case Closing => 2
      case Closed => 3
    }
  }

  datatype Driver = Init | Connecting | TlsHandshake | WsHandshake | Open | Closing | Closed
}
