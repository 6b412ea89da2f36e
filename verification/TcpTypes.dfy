/** The connection record of `src/tcp.h`. */
module TcpTypes {
  import opened Util
  import opened Addresses

  datatype State = NoConnection | New | SynReceived | Established | Dyeing

  datatype TcpConnection = TcpConnection(
    sendSequence: u32,
    expectedSequence: u32,
    port: u16,
    remotePort: u16,
    maxSegmetSize: u16,
    state: State,
    ip: Ip,
    mac: Mac)
}
