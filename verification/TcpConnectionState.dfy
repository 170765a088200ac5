/** The states of a TcpConnection. */
module TcpConnectionState {

  datatype StateE = Disconnected | Connecting | Connected | Disconnecting
}
