/** Link and network addresses. */
module Addresses {
  import opened Util

  /** `MAC_ADDRESS_SIZE` bytes. */
  type Mac = s: seq<byte> | |s| == 6 witness [0, 0, 0, 0, 0, 0]

  /** `IP_V4_ADDRESS_SIZE` bytes. */
  type Ip = s: seq<byte> | |s| == 4 witness [0, 0, 0, 0]
}
